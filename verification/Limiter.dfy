/** The two-level limiter: every request needs tokens from its tenant's bucket and from the global one.

    `Limiter` is the limiter as a value: one flat map of tenants. The class keeps 32 shards of bucket
    objects; its methods are proved to compute the functions on the flat value. */
module Limiter {
  import opened Arith
  import opened Shards
  import opened TokenBucket

  datatype Limiter = Limiter(global: Bucket, globalRate: int, tenants: map<string, Bucket>)

  /** Clock readings one request may take: on creating the bucket and in the two refills. */
  datatype Clock = Clock(create: int, tenant: int, global: int)

  function FullBucket(limit: int, now: int): Bucket {
    Bucket(limit, limit, limit, now)
  }

  /** A tenth of the global rate, at least 1000. */
  function DefaultRate(globalRate: int): int {
    Max(1000, Quot(globalRate, 10))
  }

  function Fresh(globalQPS: int, now: int): Limiter {
    Limiter(FullBucket(globalQPS, now), globalQPS, map[])
  }

  function WithTenant(l: Limiter, tenant: string, now: int): Limiter {
    if tenant in l.tenants then l
    else l.(tenants := l.tenants[tenant := FullBucket(DefaultRate(l.globalRate), now)])
  }

  function Allowed(l: Limiter, tenant: string, n: int, c: Clock): (Limiter, bool) {
    var l0 := WithTenant(l, tenant, c.create);
    var (mine, took) := Consumed(l0.tenants[tenant], n, c.tenant);
    if !took then (l0.(tenants := l0.tenants[tenant := mine]), false)
    else
      var (global, ok) := Consumed(l0.global, n, c.global);
      var kept := if ok then mine else Returned(mine, n);
      (l0.(global := global, tenants := l0.tenants[tenant := kept]), ok)
  }

  function Limited(l: Limiter, tenant: string, qps: int, now: int): Limiter {
    var l0 := WithTenant(l, tenant, now);
    var b := l0.tenants[tenant];
    l0.(tenants := l0.tenants[tenant := Bucket(Min(b.tokens, qps), qps, qps, b.lastRefill)])
  }

  lemma LimitIsSet(l: Limiter, tenant: string, qps: int, now: int)
    ensures var b, after := WithTenant(l, tenant, now).tenants[tenant], Limited(l, tenant, qps, now);
            && tenant in after.tenants
            && after.tenants[tenant] == Bucket(if b.tokens <= qps then b.tokens else qps, qps, qps, b.lastRefill)
            && after.global == l.global && after.tenants - {tenant} == l.tenants - {tenant}
  {
  }

  // ---- What one request does ----

  predicate WithinCapacity(l: Limiter) {
    && InRange(l.global)
    && forall t :: t in l.tenants ==> InRange(l.tenants[t])
  }

  /** A refusal costs nobody anything: each bucket is as it was, or as a refill alone leaves it. */
  lemma RefusalOnlyRefills(l: Limiter, tenant: string, n: nat, c: Clock)
    requires WithinCapacity(l) && !Allowed(l, tenant, n, c).1
    ensures var before, after := WithTenant(l, tenant, c.create), Allowed(l, tenant, n, c).0;
            && after.global in {before.global, Refilled(before.global, c.global)}
            && after.tenants.Keys == before.tenants.Keys
            && after.tenants[tenant] in {before.tenants[tenant], Refilled(before.tenants[tenant], c.tenant)}
            && forall t :: t in before.tenants && t != tenant ==> after.tenants[t] == before.tenants[t]
  {
  }

  /** An admission takes exactly n from the tenant's bucket and exactly n from the global bucket,
      each refilled first only if it was short, and nothing from any other tenant. */
  lemma AdmissionTakesFromBoth(l: Limiter, tenant: string, n: nat, c: Clock)
    requires WithinCapacity(l) && Allowed(l, tenant, n, c).1
    ensures var before, after := WithTenant(l, tenant, c.create), Allowed(l, tenant, n, c).0;
            var mine, global := Topped(before.tenants[tenant], n, c.tenant), Topped(before.global, n, c.global);
            && after.global == global.(tokens := global.tokens - n)
            && after.tenants[tenant] == mine.(tokens := mine.tokens - n)
            && after.global.tokens >= 0 && after.tenants[tenant].tokens >= 0
            && after.tenants - {tenant} == before.tenants - {tenant}
  {
  }

  /** A request is admitted exactly if its tenant's bucket and the global one can each give n tokens, if
      need be after a refill. A tenant seen for the first time has a full bucket of a tenth of the global
      rate, but at least 1000. */
  lemma AdmittedIff(l: Limiter, tenant: string, n: int, c: Clock)
    requires l.globalRate >= 0
    ensures var rate := if l.globalRate / 10 < 1000 then 1000 else l.globalRate / 10;
            var mine := if tenant in l.tenants then l.tenants[tenant] else Bucket(rate, rate, rate, c.create);
            Allowed(l, tenant, n, c).1 <==>
              && (n <= mine.tokens || n <= Holds(mine, c.tenant))
              && (n <= l.global.tokens || n <= Holds(l.global, c.global))
  {
    var l0 := WithTenant(l, tenant, c.create);
    ConsumeTakes(l0.tenants[tenant], n, c.tenant);
    ConsumeTakes(l0.global, n, c.global);
  }

  // ---- Sequential runs ----

  /** A call on the limiter, or one bucket's turn in the background refill loop. */
  datatype Call =
    | AllowN(tenant: string, n: nat, clock: Clock)
    | SetTenantLimit(tenant: string, qps: nat, now: int)
    | RefillGlobal(now: int)
    | RefillTenant(tenant: string, now: int)

  /** The tenant's own bucket lets the request through, so that the global bucket is asked. */
  predicate AsksGlobal(l: Limiter, tenant: string, n: int, c: Clock) {
    Consumed(WithTenant(l, tenant, c.create).tenants[tenant], n, c.tenant).1
  }

  /** The limiter, what each tenant has been admitted so far, and what refills of the global bucket,
      whether by a request that found it short or by the refill loop, have added to it so far. */
  datatype Ledger = Ledger(limiter: Limiter, admitted: map<string, nat>, refilled: int)

  function Credit(admitted: map<string, nat>, tenant: string, n: nat): map<string, nat> {
    admitted[tenant := (if tenant in admitted then admitted[tenant] else 0) + n]
  }

  function Apply(s: Ledger, call: Call): Ledger {
    match call
    case AllowN(tenant, n, clock) =>
      var (l, ok) := Allowed(s.limiter, tenant, n, clock);
      s.(limiter := l, admitted := if ok then Credit(s.admitted, tenant, n) else s.admitted,
         refilled := s.refilled + if AsksGlobal(s.limiter, tenant, n, clock)
                                  then Topped(s.limiter.global, n, clock.global).tokens - s.limiter.global.tokens
                                  else 0)
    case SetTenantLimit(tenant, qps, now) =>
      s.(limiter := Limited(s.limiter, tenant, qps, now))
    case RefillGlobal(now) =>
      var global := Refilled(s.limiter.global, now);
      s.(limiter := s.limiter.(global := global),
         refilled := s.refilled + global.tokens - s.limiter.global.tokens)
    case RefillTenant(tenant, now) =>
      if tenant !in s.limiter.tenants then s
      else
        var b := s.limiter.tenants[tenant];
        s.(limiter := s.limiter.(tenants := s.limiter.tenants[tenant := Refilled(b, now)]))
  }

  function Run(globalQPS: nat, start: int, calls: seq<Call>): Ledger {
    if calls == [] then Ledger(Fresh(globalQPS, start), map[], 0)
    else Apply(Run(globalQPS, start, calls[..|calls| - 1]), calls[|calls| - 1])
  }

  ghost function Total(m: map<string, nat>): nat
    decreases |m|
  {
    if m == map[] then 0
    else
      var k :| k in m;
      m[k] + Total(m - {k})
  }

  /** The total does not depend on the order in which tenants are added up. */
  lemma {:induction false} TotalSplits(m: map<string, nat>, k: string)
    requires k in m
    ensures Total(m) == m[k] + Total(m - {k})
    decreases |m|
  {
    var first :| first in m && Total(m) == m[first] + Total(m - {first});
    if first != k {
      TotalSplits(m - {first}, k);
      TotalSplits(m - {k}, first);
      assert m - {first} - {k} == m - {k} - {first};
    }
  }

  lemma TotalCredits(m: map<string, nat>, tenant: string, n: nat)
    ensures Total(Credit(m, tenant, n)) == Total(m) + n
  {
    var m' := Credit(m, tenant, n);
    TotalSplits(m', tenant);
    assert m' - {tenant} == m - {tenant};
    if tenant in m {
      TotalSplits(m, tenant);
    } else {
      assert m - {tenant} == m;
    }
  }

  /** Everything admitted, by anyone, came out of the global bucket, which was filled once at the
      start and then only by refills that respect the global rate. */
  ghost predicate Balanced(globalQPS: nat, start: int, s: Ledger) {
    var g := s.limiter.global;
    && WithinCapacity(s.limiter)
    && g.maxTokens == g.refillRate == globalQPS
    && start <= g.lastRefill
    && Total(s.admitted) + g.tokens == globalQPS + s.refilled
    && s.refilled * SECOND <= (g.lastRefill - start) * globalQPS
  }

  lemma RefillBalance(b: Bucket, now: int, start: int)
    requires InRange(b) && b.refillRate >= 0
    ensures var r := Refilled(b, now);
            && InRange(r) && r.lastRefill >= b.lastRefill
            && r == b.(tokens := r.tokens, lastRefill := r.lastRefill)
            && 0 <= (r.tokens - b.tokens) * SECOND
                 <= (r.lastRefill - start) * b.refillRate - (b.lastRefill - start) * b.refillRate
  {
  }

  lemma AllowedStaysWithin(l: Limiter, tenant: string, n: nat, c: Clock)
    requires WithinCapacity(l)
    ensures WithinCapacity(Allowed(l, tenant, n, c).0)
  {
  }

  /** A request that does not get past its tenant's bucket leaves the global one alone; any other has
      it refilled if it is short, and takes n from it exactly if it is admitted. */
  lemma AllowedGlobal(l: Limiter, tenant: string, n: nat, c: Clock)
    ensures var (after, ok) := Allowed(l, tenant, n, c);
            var topped := Topped(l.global, n, c.global);
            && (ok ==> AsksGlobal(l, tenant, n, c))
            && after.global == if !AsksGlobal(l, tenant, n, c) then l.global
                               else if ok then topped.(tokens := topped.tokens - n) else topped
  {
  }

  lemma AllowKeepsBalance(globalQPS: nat, start: int, s: Ledger, call: Call)
    requires Balanced(globalQPS, start, s) && call.AllowN?
    ensures Balanced(globalQPS, start, Apply(s, call))
  {
    var AllowN(tenant, n, clock) := call;
    var global := s.limiter.global;
    AllowedStaysWithin(s.limiter, tenant, n, clock);
    AllowedGlobal(s.limiter, tenant, n, clock);
    RefillBalance(global, clock.global, start);
    TotalCredits(s.admitted, tenant, n);
    var topped, after := Topped(global, n, clock.global), Allowed(s.limiter, tenant, n, clock).0.global;
    assert (topped.tokens - global.tokens) * SECOND
           <= (topped.lastRefill - start) * globalQPS - (global.lastRefill - start) * globalQPS;
    assert after.lastRefill == if AsksGlobal(s.limiter, tenant, n, clock) then topped.lastRefill else global.lastRefill;
  }

  lemma ApplyKeepsBalance(globalQPS: nat, start: int, s: Ledger, call: Call)
    requires Balanced(globalQPS, start, s)
    ensures Balanced(globalQPS, start, Apply(s, call))
  {
    match call
    case AllowN(_, _, _) => AllowKeepsBalance(globalQPS, start, s, call);
    case SetTenantLimit(_, _, _) =>
    case RefillGlobal(now) => RefillBalance(s.limiter.global, now, start);
    case RefillTenant(tenant, now) =>
  }

  lemma {:induction false} RunKeepsBalance(globalQPS: nat, start: int, calls: seq<Call>)
    ensures Balanced(globalQPS, start, Run(globalQPS, start, calls))
  {
    if calls == [] {
    } else {
      RunKeepsBalance(globalQPS, start, calls[..|calls| - 1]);
      ApplyKeepsBalance(globalQPS, start, Run(globalQPS, start, calls[..|calls| - 1]), calls[|calls| - 1]);
    }
  }

  /** Over every sequential run, what all tenants were admitted is exactly what the global bucket
      gave up, and so never exceeds the global burst plus the global rate times the elapsed time. */
  lemma AdmissionsAreConserved(globalQPS: nat, start: int, calls: seq<Call>)
    ensures var s := Run(globalQPS, start, calls);
            && Total(s.admitted) == globalQPS + s.refilled - s.limiter.global.tokens
            && Total(s.admitted) + s.limiter.global.tokens
                 <= globalQPS + (s.limiter.global.lastRefill - start) * globalQPS / SECOND
  {
    RunKeepsBalance(globalQPS, start, calls);
  }

  /** What the refill loop does to a bucket. */
  lemma RefillLoopCredits(s: Ledger, tenant: string, now: int)
    ensures var g, l := s.limiter.global, Apply(s, RefillGlobal(now)).limiter;
            && l.global == Bucket(Holds(g, now), g.maxTokens, g.refillRate,
                                  if now > g.lastRefill then now else g.lastRefill)
            && l.tenants == s.limiter.tenants
    ensures var l := Apply(s, RefillTenant(tenant, now)).limiter;
            && l.global == s.limiter.global
            && if tenant !in s.limiter.tenants then l == s.limiter
               else
                 var b := s.limiter.tenants[tenant];
                 l.tenants == s.limiter.tenants[tenant := Bucket(Holds(b, now), b.maxTokens, b.refillRate,
                                                                 if now > b.lastRefill then now else b.lastRefill)]
  {
    RefillCredits(s.limiter.global, now);
    if tenant in s.limiter.tenants {
      RefillCredits(s.limiter.tenants[tenant], now);
    }
  }

  // ---- A tenant's limit over a run ----

  function AdmittedOf(s: Ledger, tenant: string): nat {
    if tenant in s.admitted then s.admitted[tenant] else 0
  }

  /** These calls do not set the tenant's limit, and read no later clock than `until` for its bucket. */
  predicate Later(calls: seq<Call>, tenant: string, until: int) {
    forall k :: 0 <= k < |calls| ==>
      match calls[k]
      case AllowN(_, _, clock) => clock.tenant <= until
      case SetTenantLimit(x, _, _) => x != tenant
      case RefillTenant(_, now) => now <= until
      case RefillGlobal(_) => true
  }

  /** What the tenant may have been admitted since its limit was set, with what its bucket holds. */
  ghost predicate TenantBalanced(s0: Ledger, s: Ledger, tenant: string, qps: nat, from: int, until: int) {
    && tenant in s.limiter.tenants
    && var b := s.limiter.tenants[tenant];
    && b.maxTokens == qps && b.refillRate == qps && InRange(b) && from <= b.lastRefill <= until
    && (AdmittedOf(s, tenant) - AdmittedOf(s0, tenant) + b.tokens - qps) * SECOND <= (b.lastRefill - from) * qps
  }

  /** When the tenant's bucket was last refilled; a new one is as good as refilled now. */
  function LastRefill(s: Ledger, tenant: string, now: int): int {
    if tenant in s.limiter.tenants then s.limiter.tenants[tenant].lastRefill else now
  }

  lemma BalanceBounds(s0: Ledger, s: Ledger, tenant: string, qps: nat, from: int, until: int)
    requires TenantBalanced(s0, s, tenant, qps, from, until)
    ensures AdmittedOf(s, tenant) - AdmittedOf(s0, tenant) <= qps + (until - from) * qps / 1_000_000_000
  {
    var last := s.limiter.tenants[tenant].lastRefill;
    assert (until - last) * qps >= 0;
    assert (until - from) * qps == (last - from) * qps + (until - last) * qps;
  }

  lemma RequestKeepsTenant(s0: Ledger, s: Ledger, call: Call, tenant: string, qps: nat, from: int, until: int)
    requires TenantBalanced(s0, s, tenant, qps, from, until) && call.AllowN? && call.clock.tenant <= until
    ensures TenantBalanced(s0, Apply(s, call), tenant, qps, from, until)
  {
    RefillBalance(s.limiter.tenants[tenant], call.clock.tenant, from);
  }

  lemma CallKeepsTenant(s0: Ledger, s: Ledger, call: Call, tenant: string, qps: nat, from: int, until: int)
    requires TenantBalanced(s0, s, tenant, qps, from, until) && Later([call], tenant, until)
    ensures TenantBalanced(s0, Apply(s, call), tenant, qps, from, until)
  {
    assert [call][0] == call;
    match call
    case AllowN(_, _, _) => RequestKeepsTenant(s0, s, call, tenant, qps, from, until);
    case SetTenantLimit(_, _, _) =>
    case RefillGlobal(_) =>
    case RefillTenant(x, now) => RefillBalance(s.limiter.tenants[tenant], now, from);
  }

  lemma LimitStartsTenant(s: Ledger, tenant: string, qps: nat, now: int, until: int)
    requires WithinCapacity(s.limiter)
    requires LastRefill(s, tenant, now) <= until
    ensures TenantBalanced(s, Apply(s, SetTenantLimit(tenant, qps, now)), tenant, qps,
                           LastRefill(s, tenant, now), until)
  {
  }

  lemma {:induction false} RunKeepsTenant(globalQPS: nat, start: int, before: seq<Call>, tenant: string, qps: nat,
                                          now: int, later: seq<Call>, until: int)
    requires Later(later, tenant, until)
    requires LastRefill(Run(globalQPS, start, before), tenant, now) <= until
    ensures var s0 := Run(globalQPS, start, before);
            var from := LastRefill(s0, tenant, now);
            var s := Run(globalQPS, start, before + [SetTenantLimit(tenant, qps, now)] + later);
            TenantBalanced(s0, s, tenant, qps, from, until)
    decreases |later|
  {
    var s0, limited := Run(globalQPS, start, before), before + [SetTenantLimit(tenant, qps, now)];
    if later == [] {
      assert limited + later == limited && limited[..|limited| - 1] == before;
      RunKeepsBalance(globalQPS, start, before);
      LimitStartsTenant(s0, tenant, qps, now, until);
    } else {
      var last := |later| - 1;
      RunKeepsTenant(globalQPS, start, before, tenant, qps, now, later[..last], until);
      assert (limited + later)[..|limited + later| - 1] == limited + later[..last];
      assert Later([later[last]], tenant, until);
      var from := LastRefill(s0, tenant, now);
      CallKeepsTenant(s0, Run(globalQPS, start, limited + later[..last]), later[last], tenant, qps, from, until);
    }
  }

  /** Over every run after a tenant's limit was set, the tenant is admitted at most qps tokens plus qps for
      each second since the last refill of its bucket before that (or since its creation). */
  lemma LimitBoundsAdmissions(globalQPS: nat, start: int, before: seq<Call>, tenant: string, qps: nat,
                              now: int, later: seq<Call>, until: int)
    requires Later(later, tenant, until)
    requires LastRefill(Run(globalQPS, start, before), tenant, now) <= until
    ensures var s0 := Run(globalQPS, start, before);
            var from := LastRefill(s0, tenant, now);
            var s := Run(globalQPS, start, before + [SetTenantLimit(tenant, qps, now)] + later);
            AdmittedOf(s, tenant) - AdmittedOf(s0, tenant) <= qps + (until - from) * qps / 1_000_000_000
  {
    RunKeepsTenant(globalQPS, start, before, tenant, qps, now, later, until);
    var s0 := Run(globalQPS, start, before);
    var s := Run(globalQPS, start, before + [SetTenantLimit(tenant, qps, now)] + later);
    BalanceBounds(s0, s, tenant, qps, LastRefill(s0, tenant, now), until);
  }

  // ---- The sharded limiter ----

  class HierarchicalLimiter {
    const globalRate: int
    /** The tenant hash, FNV-1a in the source; any function will do. */
    const hash: string -> nat
    var globalBucket: TokenBucket
    var tenantShards: seq<map<string, TokenBucket>>
    /** The flat map that the shards represent. */
    ghost var flat: map<string, TokenBucket>

    ghost predicate Valid()
      reads this
    {
      && Represents(hash, tenantShards, flat)
      && Distinct(flat)
      && globalBucket !in flat.Values
    }

    ghost function Buckets(): set<TokenBucket>
      reads this
    {
      {globalBucket} + flat.Values
    }

    ghost function Value(): Limiter
      reads this, Buckets()
    {
      Limiter(globalBucket.Value(), globalRate, map t | t in flat :: flat[t].Value())
    }

    constructor (globalQPS: int, hash: string -> nat, now: int)
      ensures Valid() && Value() == Fresh(globalQPS, now) && fresh(Buckets()) && flat == map[]
      ensures globalBucket.Value() == Bucket(globalQPS, globalQPS, globalQPS, now)
    {
      globalRate := globalQPS;
      this.hash := hash;
      globalBucket := new TokenBucket(globalQPS, now);
      tenantShards := seq(NUM_SHARDS, _ => map[]);
      flat := map[];
    }

    /** The flat value after a change to one tenant's bucket and the global bucket only. */
    twostate lemma ValueAfter(tenant: string)
      requires old(Valid()) && tenant in old(flat)
      requires flat == old(flat) && globalBucket == old(globalBucket)
      requires forall t :: t in flat && t != tenant ==> flat[t].Value() == old(flat[t].Value())
      ensures Value() == Limiter(globalBucket.Value(), globalRate,
                                 old(Value()).tenants[tenant := flat[tenant].Value()])
    {
    }

    twostate lemma ValueStored(tenant: string, new bucket: TokenBucket)
      requires flat == old(flat)[tenant := bucket] && globalBucket == old(globalBucket)
      requires forall b :: b in old(Buckets()) ==> b.Value() == old(b.Value())
      ensures Value() == old(Value()).(tenants := old(Value()).tenants[tenant := bucket.Value()])
    {
      assert forall t :: t in old(flat) ==> old(flat)[t] in old(Buckets());
    }

    method StoreBucket(tenant: string, bucket: TokenBucket)
      requires Valid() && tenant !in flat && bucket !in Buckets()
      modifies this`tenantShards, this`flat
      ensures Valid() && flat == old(flat)[tenant := bucket] && Buckets() == old(Buckets()) + {bucket}
    {
      StoreRepresents(hash, tenantShards, flat, tenant, bucket);
      StoreDistinct(flat, tenant, bucket);
      var i := ShardOf(hash, tenant);
      tenantShards := tenantShards[i := tenantShards[i][tenant := bucket]];
      flat := flat[tenant := bucket];
    }

    method GetTenantBucket(tenant: string, now: int) returns (bucket: TokenBucket)
      requires Valid()
      modifies this`tenantShards, this`flat
      ensures Valid() && tenant in flat && bucket == flat[tenant]
      ensures Value() == WithTenant(old(Value()), tenant, now)
      ensures Buckets() == old(Buckets()) + {bucket} && fresh(Buckets() - old(Buckets()))
      ensures tenant in old(flat) ==> flat == old(flat)
      ensures tenant !in old(flat) && globalRate >= 0 ==>
                var rate := if globalRate / 10 < 1000 then 1000 else globalRate / 10;
                bucket.Value() == Bucket(rate, rate, rate, now)
      ensures var shard := tenantShards[hash(tenant) % 32]; tenant in shard && shard[tenant] == bucket
    {
      var shard := tenantShards[ShardOf(hash, tenant)];
      if tenant in shard {
        return shard[tenant];
      }
      var tenantRate := Quot(globalRate, 10);
      if tenantRate < 1000 {
        tenantRate := 1000;
      }
      bucket := new TokenBucket(tenantRate, now);
      StoreBucket(tenant, bucket);
      ValueStored(tenant, bucket);
    }

    /** Take n from a bucket of this limiter; the other buckets stay as they are. */
    method ConsumeBoth(tenant: string, bucket: TokenBucket, n: int, c: Clock) returns (ok: bool)
      requires Valid() && tenant in flat && bucket == flat[tenant]
      modifies Buckets()
      ensures Valid()
      ensures (Value(), ok) == Allowed(old(Value()), tenant, n, c)
    {
      ok := bucket.TryConsume(n, c.tenant);
      if ok {
        ok := globalBucket.TryConsume(n, c.global);
        if !ok {
          bucket.Return(n);
        }
      }
      ValueAfter(tenant);
    }

    method AllowN(tenant: string, n: int, c: Clock) returns (ok: bool)
      requires Valid()
      modifies this`tenantShards, this`flat, Buckets()
      ensures Valid() && fresh(Buckets() - old(Buckets()))
      ensures (Value(), ok) == Allowed(old(Value()), tenant, n, c)
    {
      var bucket := GetTenantBucket(tenant, c.create);
      ok := ConsumeBoth(tenant, bucket, n, c);
    }

    method SetTenantLimit(tenant: string, qps: int, now: int)
      requires Valid()
      modifies this`tenantShards, this`flat, Buckets()
      ensures Valid() && fresh(Buckets() - old(Buckets()))
      ensures Value() == Limited(old(Value()), tenant, qps, now)
      ensures tenant in flat && flat[tenant].maxTokens == qps && flat[tenant].refillRate == qps
      ensures tenant in old(flat) ==>
                && flat[tenant].tokens == (if old(flat[tenant].tokens) <= qps then old(flat[tenant].tokens) else qps)
                && flat[tenant].lastRefill == old(flat[tenant].lastRefill)
    {
      ghost var was := Value();
      LimitIsSet(was, tenant, qps, now);
      var bucket := GetTenantBucket(tenant, now);
      ApplyLimit(tenant, bucket, qps);
    }

    method ApplyLimit(tenant: string, bucket: TokenBucket, qps: int)
      requires Valid() && tenant in flat && bucket == flat[tenant]
      modifies bucket
      ensures Valid()
      ensures Value() == Limited(old(Value()), tenant, qps, 0)
    {
      bucket.SetLimit(qps);
      ValueAfter(tenant);
    }
  }
}
