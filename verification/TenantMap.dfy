/** Concurrent getTenantBucket calls on the sharded tenant map.

    One step is one action of one thread: taking or releasing a shard's lock, a lookup, an allocation
    or a store. `log` records, in order, every bucket stored and every bucket handed to a caller. */
module TenantMap {
  import opened Collections
  import opened Shards

  /** A bucket object, named by the order of its allocation. */
  datatype Bucket = Bucket(id: nat)

  datatype Pc =
    | Idle
    | LockShared(tenant: string)
    | Lookup(tenant: string)
    | UnlockShared(tenant: string, found: Option<Bucket>)
    | LockExclusive(tenant: string)
    | Recheck(tenant: string)
    | Store(tenant: string, bucket: Bucket)
    | UnlockExclusive(tenant: string, bucket: Bucket)

  datatype Event = Stored(tenant: string, bucket: Bucket) | Got(tenant: string, bucket: Bucket)

  /** The read-write lock of a shard: any number of readers, or one writer. */
  datatype Lock = Lock(readers: set<nat>, writer: Option<nat>)

  datatype State = State(
    shards: seq<map<string, Bucket>>, locks: seq<Lock>, nextBucket: nat, threads: seq<Pc>, log: seq<Event>)

  /** `call` names the tenant for a thread that is idle; other threads ignore it. */
  datatype Move = Move(thread: nat, call: string)

  function Step(hash: string -> nat, s: State, m: Move): State
    requires |s.shards| == |s.locks| == NUM_SHARDS
  {
    if m.thread >= |s.threads| then s
    else
      var t := m.thread;
      match s.threads[t]
      case Idle => Goto(s, t, LockShared(m.call))
      case LockShared(tenant) =>
        var i := ShardOf(hash, tenant);
        if s.locks[i].writer.Some? then s
        else Goto(s.(locks := s.locks[i := s.locks[i].(readers := s.locks[i].readers + {t})]), t, Lookup(tenant))
      case Lookup(tenant) =>
        var shard := s.shards[ShardOf(hash, tenant)];
        Goto(s, t, UnlockShared(tenant, if tenant in shard then Some(shard[tenant]) else None))
      case UnlockShared(tenant, found) =>
        var i := ShardOf(hash, tenant);
        var s' := s.(locks := s.locks[i := s.locks[i].(readers := s.locks[i].readers - {t})]);
        if found.None? then Goto(s', t, LockExclusive(tenant))
        else Goto(s'.(log := s.log + [Got(tenant, found.value)]), t, Idle)
      case LockExclusive(tenant) =>
        var i := ShardOf(hash, tenant);
        if s.locks[i].writer.Some? || s.locks[i].readers != {} then s
        else Goto(s.(locks := s.locks[i := s.locks[i].(writer := Some(t))]), t, Recheck(tenant))
      case Recheck(tenant) =>
        var shard := s.shards[ShardOf(hash, tenant)];
        if tenant in shard then Goto(s, t, UnlockExclusive(tenant, shard[tenant]))
        else Goto(s.(nextBucket := s.nextBucket + 1), t, Store(tenant, Bucket(s.nextBucket)))
      case Store(tenant, b) =>
        var i := ShardOf(hash, tenant);
        Goto(s.(shards := s.shards[i := s.shards[i][tenant := b]], log := s.log + [Stored(tenant, b)]), t,
             UnlockExclusive(tenant, b))
      case UnlockExclusive(tenant, b) =>
        var i := ShardOf(hash, tenant);
        Goto(s.(locks := s.locks[i := s.locks[i].(writer := None)], log := s.log + [Got(tenant, b)]), t, Idle)
  }

  function Goto(s: State, t: nat, pc: Pc): State
    requires t < |s.threads|
  {
    s.(threads := s.threads[t := pc])
  }

  function Start(threads: nat): State {
    State(seq(NUM_SHARDS, _ => map[]), seq(NUM_SHARDS, _ => Lock({}, None)), 0, seq(threads, _ => Idle), [])
  }

  function Run(hash: string -> nat, threads: nat, schedule: seq<Move>): (s: State)
    ensures |s.shards| == |s.locks| == NUM_SHARDS
  {
    if schedule == [] then Start(threads)
    else Step(hash, Run(hash, threads, schedule[..|schedule| - 1]), schedule[|schedule| - 1])
  }

  // ---- The flat map ----

  /** The flat map after the stores of a log. */
  function Flat(log: seq<Event>): map<string, Bucket> {
    if log == [] then map[]
    else
      var before := Flat(log[..|log| - 1]);
      var e := log[|log| - 1];
      if e.Stored? then before[e.tenant := e.bucket] else before
  }

  /** The log is a run of an atomic get-or-create on one flat map: a tenant is stored only when it is
      absent and with a bucket nobody has, and every caller gets what the map holds. */
  ghost predicate Atomic(log: seq<Event>) {
    log == [] ||
    var flat := Flat(log[..|log| - 1]);
    && Atomic(log[..|log| - 1])
    && match log[|log| - 1]
       case Stored(tenant, b) => tenant !in flat && b !in flat.Values
       case Got(tenant, b) => tenant in flat && flat[tenant] == b
  }

  // ---- The invariant ----

  ghost predicate HoldsShared(pc: Pc) {
    pc.Lookup? || pc.UnlockShared?
  }

  ghost predicate HoldsExclusive(pc: Pc) {
    pc.Recheck? || pc.Store? || pc.UnlockExclusive?
  }

  /** The locks agree with the threads: a writer excludes readers and other writers of its shard. */
  ghost predicate Locked(hash: string -> nat, s: State) {
    && |s.shards| == |s.locks| == NUM_SHARDS
    && (forall t :: 0 <= t < |s.threads| && HoldsExclusive(s.threads[t]) ==>
          s.locks[ShardOf(hash, s.threads[t].tenant)].writer == Some(t))
    && (forall t :: 0 <= t < |s.threads| && HoldsShared(s.threads[t]) ==>
          t in s.locks[ShardOf(hash, s.threads[t].tenant)].readers)
    && (forall i :: 0 <= i < NUM_SHARDS && s.locks[i].writer.Some? ==> s.locks[i].readers == {})
  }

  /** What a thread between two steps may rely on. */
  ghost predicate Relies(s: State, t: nat)
    requires t < |s.threads|
  {
    var flat := Flat(s.log);
    match s.threads[t]
    case UnlockShared(tenant, found) => found.Some? ==> tenant in flat && flat[tenant] == found.value
    case Store(tenant, b) => tenant !in flat && b.id < s.nextBucket && b !in flat.Values
    case UnlockExclusive(tenant, b) => tenant in flat && flat[tenant] == b
    case _ => true
  }

  ghost predicate Inv(hash: string -> nat, s: State) {
    && Locked(hash, s)
    && Represents(hash, s.shards, Flat(s.log))
    && Distinct(Flat(s.log))
    && Atomic(s.log)
    && (forall b :: b in Flat(s.log).Values ==> b.id < s.nextBucket)
    && (forall t :: 0 <= t < |s.threads| ==> Relies(s, t))
    && (forall t, u :: 0 <= t < u < |s.threads| && s.threads[t].Store? && s.threads[u].Store? ==>
          s.threads[t].bucket != s.threads[u].bucket)
  }

  lemma SharedMoveKeepsLocked(hash: string -> nat, s: State, m: Move)
    requires Locked(hash, s) && m.thread < |s.threads|
    requires s.threads[m.thread].LockShared? || s.threads[m.thread].UnlockShared?
    ensures Locked(hash, Step(hash, s, m))
  {
  }

  lemma ExclusiveMoveKeepsLocked(hash: string -> nat, s: State, m: Move)
    requires Locked(hash, s) && m.thread < |s.threads|
    requires s.threads[m.thread].LockExclusive? || s.threads[m.thread].UnlockExclusive?
    ensures Locked(hash, Step(hash, s, m))
  {
  }

  lemma PlainMoveKeepsLocked(hash: string -> nat, s: State, m: Move)
    requires Locked(hash, s) && m.thread < |s.threads|
    requires var pc := s.threads[m.thread]; pc.Idle? || pc.Lookup? || pc.Recheck? || pc.Store?
    ensures Locked(hash, Step(hash, s, m))
  {
  }

  lemma StepKeepsLocked(hash: string -> nat, s: State, m: Move)
    requires Locked(hash, s)
    ensures Locked(hash, Step(hash, s, m))
  {
    if m.thread < |s.threads| {
      match s.threads[m.thread]
      case LockShared(_) => SharedMoveKeepsLocked(hash, s, m);
      case UnlockShared(_, _) => SharedMoveKeepsLocked(hash, s, m);
      case LockExclusive(_) => ExclusiveMoveKeepsLocked(hash, s, m);
      case UnlockExclusive(_, _) => ExclusiveMoveKeepsLocked(hash, s, m);
      case _ => PlainMoveKeepsLocked(hash, s, m);
    }
  }

  lemma FlatExtends(log: seq<Event>, e: Event)
    ensures Flat(log + [e]) == if e.Stored? then Flat(log)[e.tenant := e.bucket] else Flat(log)
    ensures Atomic(log + [e]) <==>
              && Atomic(log)
              && if e.Stored? then e.tenant !in Flat(log) && e.bucket !in Flat(log).Values
                 else e.tenant in Flat(log) && Flat(log)[e.tenant] == e.bucket
  {
    assert (log + [e])[..|log|] == log;
  }

  /** Storing a bucket under the exclusive lock of its shard. */
  lemma StoreKeepsInv(hash: string -> nat, s: State, m: Move)
    requires Inv(hash, s) && m.thread < |s.threads| && s.threads[m.thread].Store?
    ensures Inv(hash, Step(hash, s, m))
  {
    var Store(tenant, b) := s.threads[m.thread];
    var s', flat := Step(hash, s, m), Flat(s.log);
    assert Relies(s, m.thread);
    StepKeepsLocked(hash, s, m);
    FlatExtends(s.log, Stored(tenant, b));
    StoreRepresents(hash, s.shards, flat, tenant, b);
    StoreDistinct(flat, tenant, b);
    forall t | 0 <= t < |s'.threads|
      ensures Relies(s', t)
    {
      assert Relies(s, t);
      if t != m.thread && s.threads[t].Store? {
        assert s.threads[t].bucket != b;
        assert HoldsExclusive(s.threads[t]) && HoldsExclusive(s.threads[m.thread]);
      }
    }
  }

  lemma GotExtends(log: seq<Event>, tenant: string, b: Bucket)
    requires Atomic(log) && tenant in Flat(log) && Flat(log)[tenant] == b
    ensures Flat(log + [Got(tenant, b)]) == Flat(log) && Atomic(log + [Got(tenant, b)])
  {
    FlatExtends(log, Got(tenant, b));
  }

  /** A step that does not store leaves the flat map, and what the other threads rely on, alone. */
  lemma OtherKeepsFlat(hash: string -> nat, s: State, m: Move)
    requires |s.shards| == |s.locks| == NUM_SHARDS && Atomic(s.log)
    requires m.thread < |s.threads| && !s.threads[m.thread].Store? && Relies(s, m.thread)
    ensures var s' := Step(hash, s, m);
            && |s'.threads| == |s.threads| && s'.shards == s.shards && s'.nextBucket >= s.nextBucket
            && Flat(s'.log) == Flat(s.log) && Atomic(s'.log)
            && s'.threads == s.threads[m.thread := s'.threads[m.thread]]
  {
    match s.threads[m.thread]
    case UnlockShared(tenant, found) =>
      if found.Some? {
        GotExtends(s.log, tenant, found.value);
      }
    case UnlockExclusive(tenant, b) => GotExtends(s.log, tenant, b);
    case _ =>
  }

  lemma OtherKeepsRelies(hash: string -> nat, s: State, m: Move)
    requires Inv(hash, s) && m.thread < |s.threads| && !s.threads[m.thread].Store?
    ensures var s' := Step(hash, s, m);
            |s'.threads| == |s.threads| && Relies(s', m.thread)
  {
    assert Relies(s, m.thread);
    OtherKeepsFlat(hash, s, m);
  }

  lemma StepKeepsInv(hash: string -> nat, s: State, m: Move)
    requires Inv(hash, s)
    ensures Inv(hash, Step(hash, s, m))
  {
    if m.thread < |s.threads| {
      var s', pc := Step(hash, s, m), s.threads[m.thread];
      if pc.Store? {
        StoreKeepsInv(hash, s, m);
      } else {
        StepKeepsLocked(hash, s, m);
        assert Relies(s, m.thread);
        OtherKeepsFlat(hash, s, m);
        OtherKeepsRelies(hash, s, m);
        forall t | 0 <= t < |s'.threads|
          ensures Relies(s', t)
        {
          assert Relies(s, t);
        }
        StoresStayDistinct(hash, s, m);
      }
    }
  }

  lemma StoresStayDistinct(hash: string -> nat, s: State, m: Move)
    requires Inv(hash, s) && m.thread < |s.threads| && !s.threads[m.thread].Store?
    ensures var threads := Step(hash, s, m).threads;
            forall t, u :: 0 <= t < u < |threads| && threads[t].Store? && threads[u].Store? ==>
              threads[t].bucket != threads[u].bucket
  {
    assert forall t :: 0 <= t < |s.threads| && s.threads[t].Store? ==>
        Relies(s, t) && s.threads[t].bucket.id < s.nextBucket;
    var s' := Step(hash, s, m);
    assert s'.threads == s.threads[m.thread := s'.threads[m.thread]];
    assert s'.threads[m.thread].Store? ==> s'.threads[m.thread].bucket.id == s.nextBucket;
  }

  lemma {:induction false} RunKeepsInv(hash: string -> nat, threads: nat, schedule: seq<Move>)
    ensures Inv(hash, Run(hash, threads, schedule))
  {
    if schedule == [] {
    } else {
      RunKeepsInv(hash, threads, schedule[..|schedule| - 1]);
      StepKeepsInv(hash, Run(hash, threads, schedule[..|schedule| - 1]), schedule[|schedule| - 1]);
    }
  }

  // ---- Main results ----

  /** The sharded, double-checked map refines an atomic flat map: in every interleaving, for every
      hash, the shards hold exactly the flat map, each tenant only in the shard of its hash, and the
      stores and answers form a sequential run of get-or-create. */
  lemma RefinesFlatMap(hash: string -> nat, threads: nat, schedule: seq<Move>)
    ensures var s := Run(hash, threads, schedule);
            && Represents(hash, s.shards, Flat(s.log)) && Atomic(s.log)
            && forall t :: t in Flat(s.log) ==>
                 var shard := s.shards[hash(t) % 32]; t in shard && shard[t] == Flat(s.log)[t]
  {
    RunKeepsInv(hash, threads, schedule);
  }

  /** A call answers exactly once, for its own tenant, in the step in which it returns. */
  lemma CallsAnswerOnce(hash: string -> nat, s: State, m: Move)
    requires |s.shards| == |s.locks| == NUM_SHARDS && m.thread < |s.threads| && !s.threads[m.thread].Idle?
    ensures var s', pc := Step(hash, s, m), s.threads[m.thread];
            && |s'.threads| == |s.threads|
            && if s'.threads[m.thread].Idle?
               then |s'.log| == |s.log| + 1 && s'.log[..|s.log|] == s.log
                    && s'.log[|s.log|].Got? && s'.log[|s.log|].tenant == pc.tenant
               else
                 && s'.threads[m.thread].tenant == pc.tenant
                 && (s'.log == s.log || (pc.Store? && s'.log == s.log + [Stored(pc.tenant, pc.bucket)]))
  {
  }

  /** A thread going on for k moves, from its call for this tenant. */
  function Alone(hash: string -> nat, s: State, m: Move, k: nat): (s': State)
    requires |s.shards| == |s.locks| == NUM_SHARDS
    ensures |s'.shards| == |s'.locks| == NUM_SHARDS
    decreases k
  {
    if k == 0 then s else Alone(hash, Step(hash, s, m), m, k - 1)
  }

  lemma AloneStep(hash: string -> nat, s: State, m: Move, k: nat)
    requires |s.shards| == |s.locks| == NUM_SHARDS && k > 0
    ensures Alone(hash, s, m, k) == Alone(hash, Step(hash, s, m), m, k - 1)
  {
  }

  /** The shared part of a call: lock, look up, unlock. */
  lemma LookupAlone(hash: string -> nat, s: State, m: Move, k: nat)
    requires |s.shards| == |s.locks| == NUM_SHARDS && m.thread < |s.threads| && s.threads[m.thread].Idle? && k >= 4
    requires s.locks[ShardOf(hash, m.call)] == Lock({}, None)
    ensures var shard := s.shards[ShardOf(hash, m.call)];
            Alone(hash, s, m, k) == Alone(hash, if m.call in shard then s.(log := s.log + [Got(m.call, shard[m.call])])
                                                else Goto(s, m.thread, LockExclusive(m.call)), m, k - 4)
  {
    var i := ShardOf(hash, m.call);
    var s1 := Step(hash, s, m);
    var s2 := Step(hash, s1, m);
    var s3 := Step(hash, s2, m);
    var s4 := Step(hash, s3, m);
    AloneStep(hash, s, m, k);
    AloneStep(hash, s1, m, k - 1);
    AloneStep(hash, s2, m, k - 2);
    AloneStep(hash, s3, m, k - 3);
    var shard := s.shards[i];
    var found := if m.call in shard then Some(shard[m.call]) else None;
    assert {m.thread} - {m.thread} == {};
    assert s4.locks == s.locks;
    assert s1.threads == s.threads[m.thread := LockShared(m.call)];
    assert s2.threads == s.threads[m.thread := Lookup(m.call)];
    assert s3.threads == s.threads[m.thread := UnlockShared(m.call, found)];
    if found.Some? {
      assert s4.threads == s.threads;
    } else {
      assert s4 == Goto(s, m.thread, LockExclusive(m.call));
    }
  }

  /** The exclusive part for a tenant that is not there: lock, look again, allocate, store, unlock. */
  lemma CreateAlone(hash: string -> nat, s: State, m: Move)
    requires |s.shards| == |s.locks| == NUM_SHARDS && m.thread < |s.threads|
    requires s.threads[m.thread] == LockExclusive(m.call) && s.locks[ShardOf(hash, m.call)] == Lock({}, None)
    requires m.call !in s.shards[ShardOf(hash, m.call)]
    ensures var i, b := ShardOf(hash, m.call), Bucket(s.nextBucket);
            Alone(hash, s, m, 4)
            == s.(shards := s.shards[i := s.shards[i][m.call := b]], nextBucket := s.nextBucket + 1,
                  log := s.log + [Stored(m.call, b)] + [Got(m.call, b)], threads := s.threads[m.thread := Idle])
  {
    var i, b := ShardOf(hash, m.call), Bucket(s.nextBucket);
    var s1 := Step(hash, s, m);
    var s2 := Step(hash, s1, m);
    var s3 := Step(hash, s2, m);
    var s4 := Step(hash, s3, m);
    AloneStep(hash, s, m, 4);
    AloneStep(hash, s1, m, 3);
    AloneStep(hash, s2, m, 2);
    AloneStep(hash, s3, m, 1);
    assert Alone(hash, s4, m, 0) == s4;
    assert s4.locks == s.locks;
    assert s3.threads == s.threads[m.thread := UnlockExclusive(m.call, b)];
  }

  /** A call that nobody interferes with returns the tenant's bucket, or creates and returns a new one. */
  lemma GetOrCreateAlone(hash: string -> nat, s: State, m: Move)
    requires |s.shards| == |s.locks| == NUM_SHARDS && m.thread < |s.threads| && s.threads[m.thread].Idle?
    requires s.locks[ShardOf(hash, m.call)] == Lock({}, None)
    ensures var i := hash(m.call) % 32;
            var b := Bucket(s.nextBucket);
            if m.call in s.shards[i] then Alone(hash, s, m, 4) == s.(log := s.log + [Got(m.call, s.shards[i][m.call])])
            else Alone(hash, s, m, 8) == s.(shards := s.shards[i := s.shards[i][m.call := b]],
                                            nextBucket := s.nextBucket + 1,
                                            log := s.log + [Stored(m.call, b)] + [Got(m.call, b)])
  {
    var shard := s.shards[ShardOf(hash, m.call)];
    if m.call in shard {
      LookupAlone(hash, s, m, 4);
    } else {
      var locking := Goto(s, m.thread, LockExclusive(m.call));
      LookupAlone(hash, s, m, 8);
      CreateAlone(hash, locking, m);
      assert locking.threads[m.thread := Idle] == s.threads;
    }
  }

  /** In an atomic log, a bucket once handed out stays the tenant's bucket. */
  lemma {:induction false} AnswersLast(log: seq<Event>, k: nat)
    requires Atomic(log) && k < |log|
    ensures log[k].tenant in Flat(log) && Flat(log)[log[k].tenant] == log[k].bucket
  {
    var before := log[..|log| - 1];
    if k < |log| - 1 {
      AnswersLast(before, k);
      assert before[k] == log[k];
    }
  }

  /** Any two answers of a run, from any threads: the same bucket exactly when the same tenant. */
  lemma SameTenantSameBucket(hash: string -> nat, threads: nat, schedule: seq<Move>, j: nat, k: nat)
    requires var log := Run(hash, threads, schedule).log; j < |log| && k < |log|
    ensures var log := Run(hash, threads, schedule).log;
            log[j].bucket == log[k].bucket <==> log[j].tenant == log[k].tenant
  {
    var log := Run(hash, threads, schedule).log;
    RunKeepsInv(hash, threads, schedule);
    AnswersLast(log, j);
    AnswersLast(log, k);
  }
}
