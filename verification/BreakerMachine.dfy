/** The circuit breaker's calls under arbitrary interleaving.

    One step is one atomic load, store or add of one thread, or taking or releasing the lock of
    transitionTo. The lock keeps transitions apart, but AllowRequest, RecordSuccess and RecordFailure
    load the state and add to the counters without it. So several callers that saw an open breaker can
    start the same half-open episode, and callers can still be admitted while the breaker closes: its
    counter is reset before its state. */
module BreakerMachine {
  import opened Arith
  import opened CircuitBreaker
  import opened Collections

  datatype Pc =
    | Resting
    // AllowRequest
    | LoadState
    | LoadLastFailure
    | TestTimeout(last: int)
    | CountProbe
    // RecordSuccess
    | LoadForSuccess
    | CountSuccess
    | ClearFailures
    // RecordFailure
    | StampFailure
    | LoadForFailure
    | CountFailure
    | ReadTimeout
    | WriteTimeout(value: int)
    | CheckTimeout
    | CapTimeout
    // transitionTo, with the number of stores done; `backoff`: it reopens a half-open breaker, whose
    // timeout is doubled next
    | Locking(target: Status, backoff: bool)
    | Storing(target: Status, stored: nat, backoff: bool)

  /** `entered` counts the callers that passed the timeout test and reset the half-open counter,
      `probed` those admitted by that counter. */
  datatype State = State(b: Breaker, lock: Option<nat>, threads: seq<Pc>, entered: nat, probed: nat)

  datatype Request = CallAllow | CallSuccess | CallFailure | CallReset | Continue(now: int)

  datatype Move = Move(thread: nat, request: Request)

  /** The number of stores in a transition; the last one stores the state. */
  function Stores(target: Status): nat {
    if target.Closed? then 5 else 3
  }

  /** The store of a transition that comes after k others. */
  function Stored(b: Breaker, target: Status, k: nat): Breaker {
    match target
    case Closed =>
      if k == 0 then b.(failures := 0)
      else if k == 1 then b.(successes := 0)
      else if k == 2 then b.(halfOpenRequests := 0)
      else if k == 3 then b.(timeout := SECOND)
      else b.(status := Closed)
    case Open =>
      if k == 0 then b.(failures := 0)
      else if k == 1 then b.(successes := 0)
      else b.(status := Open)
    case HalfOpen =>
      if k == 0 then b.(halfOpenRequests := 0)
      else if k == 1 then b.(successes := 0)
      else b.(status := HalfOpen)
  }

  function Goto(s: State, t: nat, pc: Pc): State
    requires t < |s.threads|
  {
    s.(threads := s.threads[t := pc])
  }

  /** One move. A call starts only on a resting thread; any other move that does not apply is a stutter. */
  function Take(s: State, m: Move): State {
    if m.thread >= |s.threads| then s
    else if m.request.Continue? then Install(s, m.thread, Op(OwnOf(s, m.thread), m.thread, m.request.now))
    else if s.threads[m.thread].Resting? then Goto(s, m.thread, FirstPc(m.request))
    else s
  }

  /** Where a call starts. */
  function FirstPc(r: Request): Pc
    requires !r.Continue?
  {
    match r
    case CallAllow => LoadState
    case CallSuccess => LoadForSuccess
    case CallFailure => StampFailure
    case CallReset => Locking(Closed, false)
  }

  /** What a thread sees and changes: everything but the other threads. */
  datatype Own = Own(b: Breaker, lock: Option<nat>, pc: Pc, entered: nat, probed: nat)

  function OwnOf(s: State, t: nat): Own
    requires t < |s.threads|
  {
    Own(s.b, s.lock, s.threads[t], s.entered, s.probed)
  }

  function Install(s: State, t: nat, x: Own): State
    requires t < |s.threads|
  {
    State(x.b, x.lock, s.threads[t := x.pc], x.entered, x.probed)
  }

  /** The next atomic operation of a thread. */
  function Op(x: Own, t: nat, now: int): Own {
    var b := x.b;
    match x.pc
    case Resting => x
    case LoadState =>
      x.(pc := match b.status case Closed => Resting case Open => LoadLastFailure case HalfOpen => CountProbe)
    case LoadLastFailure => x.(pc := TestTimeout(b.lastFailure))
    case TestTimeout(last) => x.(pc := if now - last > b.timeout then Locking(HalfOpen, false) else Resting)
    case CountProbe =>
      var n := b.halfOpenRequests + 1;
      x.(b := b.(halfOpenRequests := n), probed := x.probed + (if n <= b.maxRequests then 1 else 0), pc := Resting)
    case LoadForSuccess =>
      x.(pc := match b.status case Closed => ClearFailures case Open => Resting case HalfOpen => CountSuccess)
    case CountSuccess =>
      var n := b.successes + 1;
      x.(b := b.(successes := n), pc := if n >= Quot(b.maxRequests, 2) then Locking(Closed, false) else Resting)
    case ClearFailures => x.(b := b.(failures := 0), pc := Resting)
    case StampFailure => x.(b := b.(lastFailure := now), pc := LoadForFailure)
    case LoadForFailure =>
      x.(pc := match b.status case Closed => CountFailure case Open => Resting case HalfOpen => Locking(Open, true))
    case CountFailure =>
      var n := b.failures + 1;
      x.(b := b.(failures := n), pc := if n >= b.maxFailures then Locking(Open, false) else Resting)
    case ReadTimeout => x.(pc := WriteTimeout(b.timeout * 2))
    case WriteTimeout(value) => x.(b := b.(timeout := value), pc := CheckTimeout)
    case CheckTimeout => x.(pc := if b.timeout > MAX_TIMEOUT then CapTimeout else Resting)
    case CapTimeout => x.(b := b.(timeout := MAX_TIMEOUT), pc := Resting)
    case Locking(target, backoff) =>
      if x.lock.Some? then x else x.(lock := Some(t), pc := Storing(target, 0, backoff))
    case Storing(target, k, backoff) =>
      if k >= Stores(target) then x.(lock := None, pc := if backoff then ReadTimeout else Resting)
      else
        x.(b := Stored(b, target, k), entered := x.entered + (if target.HalfOpen? && k == 0 then 1 else 0),
           pc := Storing(target, k + 1, backoff))
  }

  function Moves(s: State, schedule: seq<Move>): State
    decreases |schedule|
  {
    if schedule == [] then s else Moves(Take(s, schedule[0]), schedule[1..])
  }

  // ---- One half-open episode ----

  /** The breaker is half-open before, during and after these moves. */
  predicate StaysHalfOpen(s: State, schedule: seq<Move>)
    decreases |schedule|
  {
    s.b.status.HalfOpen? && (schedule == [] || StaysHalfOpen(Take(s, schedule[0]), schedule[1..]))
  }

  /** The thread is in a transition to half-open. */
  predicate Enters(pc: Pc) {
    (pc.Locking? || pc.Storing?) && pc.target.HalfOpen?
  }

  /** Only the holder of the lock is in the middle of a transition, and when it has done all its stores
      the state is the one it stored. A transition to half-open never leads to a backoff. */
  ghost predicate Locked(s: State) {
    && (forall t :: 0 <= t < |s.threads| && s.threads[t].Storing? ==>
          && s.lock == Some(t)
          && (s.threads[t].stored >= Stores(s.threads[t].target) ==> s.b.status == s.threads[t].target))
    && forall t :: 0 <= t < |s.threads| && Enters(s.threads[t]) ==> !s.threads[t].backoff
  }

  /** The thread has seen an open breaker and has not yet reset the half-open counter or given up. */
  predicate SawOpen(pc: Pc) {
    pc.LoadLastFailure? || pc.TestTimeout? || (pc.Locking? && pc.target.HalfOpen?)
    || (pc.Storing? && pc.target.HalfOpen? && pc.stored == 0)
  }

  function Seers(threads: seq<Pc>): nat {
    if threads == [] then 0
    else Seers(threads[..|threads| - 1]) + if SawOpen(threads[|threads| - 1]) then 1 else 0
  }

  /** A closing transition has reset the half-open counter and not yet stored the new state. */
  predicate ClosingLate(s: State) {
    s.lock.Some? && s.lock.value < |s.threads|
    && var pc := s.threads[s.lock.value];
       pc.Storing? && pc.target.Closed? && pc.stored >= 3
  }

  lemma {:induction false} SeersUpdate(threads: seq<Pc>, t: nat, pc: Pc)
    requires t < |threads|
    ensures Seers(threads[t := pc])
            == Seers(threads) - (if SawOpen(threads[t]) then 1 else 0) + if SawOpen(pc) then 1 else 0
  {
    var last := |threads| - 1;
    if t == last {
      assert threads[t := pc][..last] == threads[..last];
    } else {
      assert threads[t := pc][..last] == threads[..last][t := pc];
      SeersUpdate(threads[..last], t, pc);
    }
  }

  /** Callers admitted through a breaker that was not closed. */
  function Admitted(s: State): nat {
    s.entered + s.probed
  }

  /** What the half-open counter may admit before it turns callers away. */
  function Quota(b: Breaker): nat {
    Max(0, b.maxRequests)
  }

  /** What is used up of that. Callers left over from an earlier episode can be counted between the reset
      of the counter and the store of the state, so an episode can start with part of it used. */
  function Used(b: Breaker): int {
    Min(b.halfOpenRequests, Quota(b))
  }

  lemma TransitionKeepsLocked(s: State, t: nat, now: int)
    requires Locked(s) && t < |s.threads| && (s.threads[t].Locking? || s.threads[t].Storing?)
    ensures Locked(Take(s, Move(t, Continue(now))))
  {
  }

  lemma OtherKeepsLocked(s: State, m: Move)
    requires Locked(s) && m.thread < |s.threads|
    requires !m.request.Continue? || !(s.threads[m.thread].Locking? || s.threads[m.thread].Storing?)
    ensures Locked(Take(s, m))
  {
    var pc := Take(s, m).threads[m.thread];
    assert Take(s, m).lock == s.lock && Take(s, m).b.status == s.b.status;
    assert Take(s, m).threads == s.threads[m.thread := pc];
    assert pc.Storing? ==> pc == s.threads[m.thread];
    assert pc.Locking? && pc.target.HalfOpen? ==> !pc.backoff;
    assert Enters(pc) ==> !pc.backoff;
  }

  lemma TakeKeepsLocked(s: State, m: Move)
    requires Locked(s)
    ensures Locked(Take(s, m))
  {
    if m.thread < |s.threads| {
      if m.request.Continue? && (s.threads[m.thread].Locking? || s.threads[m.thread].Storing?) {
        TransitionKeepsLocked(s, m.thread, m.request.now);
      } else {
        OtherKeepsLocked(s, m);
      }
    }
  }

  /** In a half-open episode that started with state s: each entry uses up one caller that had seen the
      breaker open, and each allows a quota of probes once more; so does the closing transition. */
  ghost predicate Accounts(s: State, s': State) {
    && Locked(s') && s'.b.status.HalfOpen?
    && s'.b.maxRequests == s.b.maxRequests && s'.b.halfOpenRequests >= 0
    && s'.entered >= s.entered && s'.entered - s.entered + Seers(s'.threads) <= Seers(s.threads)
    && s'.probed - s.probed
         <= (s'.entered - s.entered) * Quota(s.b) + Min(s'.b.halfOpenRequests, Quota(s.b)) - Used(s.b)
            + if ClosingLate(s') then Quota(s.b) else 0
  }

  /** A store of a transition, by the holder of the lock. */
  lemma StoreKeepsEpisode(s: State, s': State, m: Move)
    requires Accounts(s, s') && m.thread < |s'.threads| && s'.threads[m.thread].Storing? && m.request.Continue?
    requires Take(s', m).b.status.HalfOpen?
    ensures Accounts(s, Take(s', m))
  {
    TakeKeepsLocked(s', m);
    SeersUpdate(s'.threads, m.thread, Take(s', m).threads[m.thread]);
    var k, q := s'.entered - s.entered, Quota(s.b);
    assert (k + 1) * q == k * q + q;
  }

  /** Any other step of a half-open breaker: at most a probe, admitted while the quota lasts. */
  lemma OtherEffect(s: State, m: Move)
    requires Locked(s) && s.b.status.HalfOpen? && s.b.halfOpenRequests >= 0 && m.thread < |s.threads|
    requires !s.threads[m.thread].Storing? || !m.request.Continue?
    ensures var s', t, q := Take(s, m), m.thread, Quota(s.b);
            && s'.b.status.HalfOpen? && s'.b.maxRequests == s.b.maxRequests && s'.entered == s.entered
            && s'.b.halfOpenRequests >= 0
            && s'.probed - s.probed == Min(s'.b.halfOpenRequests, q) - Min(s.b.halfOpenRequests, q)
            && s'.threads == s.threads[t := s'.threads[t]] && (SawOpen(s'.threads[t]) ==> SawOpen(s.threads[t]))
            && ClosingLate(s') == ClosingLate(s)
  {
  }

  lemma OtherKeepsEpisode(s: State, s': State, m: Move)
    requires Accounts(s, s') && m.thread < |s'.threads|
    requires !s'.threads[m.thread].Storing? || !m.request.Continue?
    ensures Accounts(s, Take(s', m))
  {
    TakeKeepsLocked(s', m);
    OtherEffect(s', m);
    SeersUpdate(s'.threads, m.thread, Take(s', m).threads[m.thread]);
  }

  lemma {:induction false} EpisodeKeepsInv(s: State, s': State, schedule: seq<Move>)
    requires Accounts(s, s') && StaysHalfOpen(s', schedule)
    ensures Accounts(s, Moves(s', schedule))
    decreases |schedule|
  {
    if schedule != [] {
      var m := schedule[0];
      if m.thread < |s'.threads| {
        if s'.threads[m.thread].Storing? && m.request.Continue? {
          assert Take(s', m).b.status.HalfOpen?;
          StoreKeepsEpisode(s, s', m);
        } else {
          OtherKeepsEpisode(s, s', m);
        }
      }
      EpisodeKeepsInv(s, Take(s', m), schedule[1..]);
    }
  }

  /** What an episode may admit: the caller that started it, every other caller that had also seen the
      breaker open, and a quota of probes for each of them, less what is used up of the first quota. */
  function Share(s: State): int {
    (1 + Seers(s.threads)) * (Quota(s.b) + 1) - Used(s.b)
  }

  /** The caller that made the breaker half-open and all admitted in these moves after it. */
  function InEpisode(s: State, schedule: seq<Move>): int {
    1 + Admitted(Moves(s, schedule)) - Admitted(s)
  }

  /** The bound, for every interleaving: from the moment a caller has made the breaker half-open, no more
      than the share are admitted until a closing transition has reset the counter, and no more than one
      quota in addition until it has stored the new state. */
  lemma EpisodeBound(s: State, schedule: seq<Move>)
    requires Locked(s) && s.b.halfOpenRequests >= 0 && StaysHalfOpen(s, schedule)
    ensures InEpisode(s, schedule) <= Share(s) + if ClosingLate(Moves(s, schedule)) then Quota(s.b) else 0
  {
    EpisodeKeepsInv(s, s, schedule);
    InvBounds(s, Moves(s, schedule));
  }

  lemma InvBounds(s: State, s': State)
    requires Accounts(s, s')
    ensures 1 + Admitted(s') - Admitted(s) <= Share(s) + if ClosingLate(s') then Quota(s.b) else 0
  {
    var late := if ClosingLate(s') then Quota(s.b) else 0;
    var k, n, q := s'.entered - s.entered, Seers(s.threads), Quota(s.b);
    var p := s'.probed - s.probed + Used(s.b) - late;
    assert p <= k * q + q;
    QuotaPerEntry(k, n, q, p);
  }

  lemma QuotaPerEntry(k: nat, n: nat, q: nat, probes: int)
    requires k <= n && probes <= k * q + q
    ensures 1 + k + probes <= (1 + n) * (q + 1)
  {
    assert (n - k) * (q + 1) >= 0;
    assert (1 + n) * (q + 1) == 1 + k + k * q + q + (n - k) * (q + 1);
  }

  // ---- The bound is reached ----

  /** A caller has just made the breaker half-open, and has given the lock back or is about to; two
      threads rest. */
  ghost predicate Starts(s: State, t: nat, u: nat) {
    && Locked(s) && s.b.status.HalfOpen? && s.b.halfOpenRequests >= 0 && (s.lock.None? || Entered(s))
    && t < |s.threads| && s.threads[t].Resting? && u < |s.threads| && s.threads[u].Resting?
  }

  /** The holder of the lock has stored the half-open state. */
  predicate Entered(s: State) {
    s.lock.Some? && s.lock.value < |s.threads|
    && var pc := s.threads[s.lock.value];
       pc.Storing? && pc.target.HalfOpen? && pc.stored >= Stores(HalfOpen)
  }

  /** What `Starts` asks of the lock and the counter holds in every run, of any calls. */
  lemma RunIsLocked(maxFailures: int, timeout: int, threads: nat, schedule: seq<Move>)
    ensures var s := Moves(Start(maxFailures, timeout, threads), schedule); Locked(s) && s.b.halfOpenRequests >= 0
  {
    KeepsLocked(Start(maxFailures, timeout, threads), schedule);
  }

  lemma {:induction false} KeepsLocked(s: State, schedule: seq<Move>)
    requires Locked(s) && s.b.halfOpenRequests >= 0
    ensures Locked(Moves(s, schedule)) && Moves(s, schedule).b.halfOpenRequests >= 0
    decreases |schedule|
  {
    if schedule != [] {
      TakeKeepsLocked(s, schedule[0]);
      KeepsLocked(Take(s, schedule[0]), schedule[1..]);
    }
  }

  lemma {:induction false} Then(s: State, a: seq<Move>, b: seq<Move>)
    ensures Moves(s, a + b) == Moves(Moves(s, a), b)
    ensures StaysHalfOpen(s, a + b) <==> StaysHalfOpen(s, a) && StaysHalfOpen(Moves(s, a), b)
    decreases |a|
  {
    if a == [] {
      assert a + b == b;
    } else {
      assert (a + b)[1..] == a[1..] + b;
      Then(Take(s, a[0]), a[1..], b);
    }
  }

  /** A thread going on for k moves, all its clock readings being `now`. */
  function Going(t: nat, now: int, k: nat): seq<Move> {
    if k == 0 then [] else [Move(t, Continue(now))] + Going(t, now, k - 1)
  }

  lemma GoOn(s: State, t: nat, now: int, k: nat)
    requires k > 0
    ensures var s' := Take(s, Move(t, Continue(now)));
            && Moves(s, Going(t, now, k)) == Moves(s', Going(t, now, k - 1))
            && (StaysHalfOpen(s, Going(t, now, k)) <==>
                  s.b.status.HalfOpen? && StaysHalfOpen(s', Going(t, now, k - 1)))
  {
    assert Going(t, now, k)[1..] == Going(t, now, k - 1);
  }

  /** The breaker after the stores of a transition from the k-th on. */
  function AllStored(b: Breaker, target: Status, k: nat): Breaker
    decreases Stores(target) - k
  {
    if k >= Stores(target) then b else AllStored(Stored(b, target, k), target, k + 1)
  }

  lemma StoresMakeTransition(b: Breaker, target: Status)
    ensures AllStored(b, target, 0) == Transition(b, target)
  {
    var b1 := Stored(b, target, 0);
    var b2 := Stored(b1, target, 1);
    var b3 := Stored(b2, target, 2);
    assert AllStored(b, target, 0) == AllStored(b1, target, 1) == AllStored(b2, target, 2) == AllStored(b3, target, 3);
    if target.Closed? {
      var b4 := Stored(b3, target, 3);
      var b5 := Stored(b4, target, 4);
      assert AllStored(b3, target, 3) == AllStored(b4, target, 4) == AllStored(b5, target, 5) == b5;
    }
  }

  /** The holder of the lock does its stores from the k-th on and gives the lock back. */
  lemma {:induction false} StoresAlone(s: State, t: nat, now: int, k: nat)
    requires t < |s.threads| && s.threads[t].Storing? && s.threads[t].stored == k <= Stores(s.threads[t].target)
    ensures var pc := s.threads[t];
            var n := Stores(pc.target) - k + 1;
            var enters := if pc.target.HalfOpen? && k == 0 then 1 else 0;
            && Moves(s, Going(t, now, n))
               == Goto(s.(b := AllStored(s.b, pc.target, k), lock := None, entered := s.entered + enters), t,
                       if pc.backoff then ReadTimeout else Resting)
            && (s.b.status.HalfOpen? && pc.target.HalfOpen? ==> StaysHalfOpen(s, Going(t, now, n)))
    decreases Stores(s.threads[t].target) - k
  {
    var pc := s.threads[t];
    var s' := Take(s, Move(t, Continue(now)));
    GoOn(s, t, now, Stores(pc.target) - k + 1);
    if k < Stores(pc.target) {
      StoresAlone(s', t, now, k + 1);
      assert s'.threads[t := if pc.backoff then ReadTimeout else Resting]
          == s.threads[t := if pc.backoff then ReadTimeout else Resting];
    }
  }

  /** A transition that nobody holds up. */
  lemma TransitionAlone(s: State, t: nat, now: int)
    requires t < |s.threads| && s.threads[t].Locking? && s.lock.None?
    ensures var pc := s.threads[t];
            var n := Stores(pc.target) + 2;
            var entered := s.entered + if pc.target.HalfOpen? then 1 else 0;
            && Moves(s, Going(t, now, n))
               == Goto(s.(b := Transition(s.b, pc.target), entered := entered), t,
                       if pc.backoff then ReadTimeout else Resting)
            && (s.b.status.HalfOpen? && pc.target.HalfOpen? ==> StaysHalfOpen(s, Going(t, now, n)))
  {
    var pc := s.threads[t];
    var s' := Take(s, Move(t, Continue(now)));
    GoOn(s, t, now, Stores(pc.target) + 2);
    StoresAlone(s', t, now, 0);
    StoresMakeTransition(s.b, pc.target);
    assert s'.threads[t := if pc.backoff then ReadTimeout else Resting]
        == s.threads[t := if pc.backoff then ReadTimeout else Resting];
  }

  /** One more probe, and whether the counter admits it. */
  function Probed(s: State): State {
    var n := s.b.halfOpenRequests + 1;
    s.(b := s.b.(halfOpenRequests := n), probed := s.probed + if n <= s.b.maxRequests then 1 else 0)
  }

  function Ask(t: nat): seq<Move> {
    [Move(t, CallAllow)] + Going(t, 0, 2)
  }

  lemma AskProbes(s: State, t: nat)
    requires s.b.status.HalfOpen? && t < |s.threads| && s.threads[t].Resting?
    ensures StaysHalfOpen(s, Ask(t)) && Moves(s, Ask(t)) == Probed(s)
  {
    var s1 := Take(s, Move(t, CallAllow));
    var s2 := Take(s1, Move(t, Continue(0)));
    assert Ask(t)[1..] == Going(t, 0, 2);
    GoOn(s1, t, 0, 2);
    GoOn(s2, t, 0, 1);
    assert s2 == Goto(s, t, CountProbe);
    assert s.threads[t := CountProbe][t := Resting] == s.threads;
  }

  /** A resting thread asking k times in a row. */
  function Asking(t: nat, k: nat): seq<Move> {
    if k == 0 then [] else Ask(t) + Asking(t, k - 1)
  }

  lemma {:induction false} AskingUsesQuota(s: State, t: nat, k: nat)
    requires s.b.status.HalfOpen? && t < |s.threads| && s.threads[t].Resting?
    requires s.b.halfOpenRequests >= 0 && k <= Quota(s.b) - Used(s.b)
    ensures StaysHalfOpen(s, Asking(t, k))
    ensures Moves(s, Asking(t, k))
            == s.(b := s.b.(halfOpenRequests := s.b.halfOpenRequests + k), probed := s.probed + k)
    decreases k
  {
    if k > 0 {
      AskProbes(s, t);
      Then(s, Ask(t), Asking(t, k - 1));
      AskingUsesQuota(Probed(s), t, k - 1);
    }
  }

  /** A caller that has seen the breaker open enters the episode, if its clock says so. */
  lemma LateEntry(s: State, w: nat) returns (schedule: seq<Move>)
    requires Locked(s) && s.b.status.HalfOpen? && s.lock.None? && w < |s.threads| && SawOpen(s.threads[w])
    ensures StaysHalfOpen(s, schedule)
    ensures Moves(s, schedule) == Goto(s.(b := Transition(s.b, HalfOpen), entered := s.entered + 1), w, Resting)
  {
    var pc := s.threads[w];
    var now := (if pc.TestTimeout? then pc.last else s.b.lastFailure) + s.b.timeout + 1;
    var at := s;
    var k := 5;
    if pc.LoadLastFailure? {
      GoOn(s, w, now, 7);
      at, k := Take(s, Move(w, Continue(now))), 6;
    } else if pc.TestTimeout? {
      k := 6;
    }
    schedule := Going(w, now, if pc.LoadLastFailure? then 7 else k);
    if k == 6 {
      GoOn(at, w, now, 6);
      at := Take(at, Move(w, Continue(now)));
    }
    TransitionAlone(at, w, now);
    assert at == Goto(s, w, at.threads[w]);
    assert at.threads[w := Resting] == s.threads[w := Resting];
  }

  lemma {:induction false} SomeSeer(threads: seq<Pc>) returns (w: nat)
    requires Seers(threads) > 0
    ensures w < |threads| && SawOpen(threads[w])
  {
    if SawOpen(threads[|threads| - 1]) {
      w := |threads| - 1;
    } else {
      w := SomeSeer(threads[..|threads| - 1]);
    }
  }

  lemma {:induction false} NoSeers(threads: seq<Pc>)
    ensures Seers(threads) == 0 <==> forall w :: 0 <= w < |threads| ==> !SawOpen(threads[w])
  {
    if threads != [] {
      NoSeers(threads[..|threads| - 1]);
    }
  }

  /** The episode goes on with the lock free, and who rested rests. */
  ghost predicate GoesOn(s: State, s': State) {
    && Locked(s') && s'.b.status.HalfOpen? && s'.b.halfOpenRequests >= 0 && s'.lock.None?
    && s'.b.maxRequests == s.b.maxRequests && |s'.threads| == |s.threads|
    && forall u :: 0 <= u < |s.threads| && s.threads[u].Resting? ==> s'.threads[u].Resting?
  }

  /** The caller that has stored the half-open state gives the lock back, if it has not yet. */
  lemma LockIsFreed(s: State, t: nat, u: nat) returns (schedule: seq<Move>)
    requires Starts(s, t, u)
    ensures var s' := Moves(s, schedule);
            && StaysHalfOpen(s, schedule) && Starts(s', t, u) && GoesOn(s, s')
            && s'.b == s.b && Seers(s'.threads) == Seers(s.threads) && Admitted(s') == Admitted(s)
  {
    if s.lock.None? {
      schedule := [];
    } else {
      var holder := s.lock.value;
      schedule := Going(holder, 0, 1);
      GoOn(s, holder, 0, 1);
      TakeKeepsLocked(s, Move(holder, Continue(0)));
      SeersUpdate(s.threads, holder, Moves(s, schedule).threads[holder]);
    }
  }

  /** What is left of the quota, and one of the callers that saw the breaker open. */
  lemma QuotaAndEntry(s: State, t: nat) returns (schedule: seq<Move>)
    requires Starts(s, t, t) && s.lock.None? && Seers(s.threads) > 0
    ensures var s' := Moves(s, schedule);
            && StaysHalfOpen(s, schedule) && GoesOn(s, s') && s'.b.halfOpenRequests == 0
            && Seers(s'.threads) == Seers(s.threads) - 1
            && Admitted(s') == Admitted(s) + Quota(s.b) - Used(s.b) + 1
  {
    var asking := Asking(t, Quota(s.b) - Used(s.b));
    AskingUsesQuota(s, t, Quota(s.b) - Used(s.b));
    var s1 := Moves(s, asking);
    var w := SomeSeer(s1.threads);
    var entry := LateEntry(s1, w);
    schedule := asking + entry;
    Then(s, asking, entry);
    SeersUpdate(s1.threads, w, Resting);
  }

  /** The same with all of them. */
  lemma {:induction false} AllEnter(s: State, t: nat) returns (schedule: seq<Move>)
    requires Starts(s, t, t) && s.lock.None?
    ensures var s' := Moves(s, schedule);
            && StaysHalfOpen(s, schedule) && GoesOn(s, s')
            && Admitted(s') - Used(s'.b) == Admitted(s) - Used(s.b) + Seers(s.threads) * (Quota(s.b) + 1)
    decreases Seers(s.threads)
  {
    if Seers(s.threads) == 0 {
      schedule := [];
    } else {
      var first := QuotaAndEntry(s, t);
      var s1 := Moves(s, first);
      var rest := AllEnter(s1, t);
      schedule := first + rest;
      Then(s, first, rest);
      OneMore(Seers(s1.threads), Quota(s.b) + 1);
    }
  }

  lemma OneMore(n: nat, q: nat)
    ensures (n + 1) * q == n * q + q == q + n * q == (1 + n) * q
  {
  }

  /** And what is left of the quota then: the whole share. */
  lemma ShareWithLock(s: State, t: nat) returns (schedule: seq<Move>)
    requires Starts(s, t, t) && s.lock.None?
    ensures StaysHalfOpen(s, schedule) && InEpisode(s, schedule) == Share(s) && GoesOn(s, Moves(s, schedule))
  {
    var first := AllEnter(s, t);
    var s1 := Moves(s, first);
    var asking := Asking(t, Quota(s1.b) - Used(s1.b));
    AskingUsesQuota(s1, t, Quota(s1.b) - Used(s1.b));
    schedule := first + asking;
    Then(s, first, asking);
    OneMore(Seers(s.threads), Quota(s.b) + 1);
  }

  lemma WholeShare(s: State, t: nat) returns (schedule: seq<Move>)
    requires Starts(s, t, t)
    ensures StaysHalfOpen(s, schedule) && InEpisode(s, schedule) == Share(s) && GoesOn(s, Moves(s, schedule))
  {
    var free := LockIsFreed(s, t, t);
    var rest := ShareWithLock(Moves(s, free), t);
    schedule := free + rest;
    Then(s, free, rest);
  }

  /** A thread that records successes until it is about to close the breaker. */
  lemma {:induction false} RecordsUntilClosing(s: State, u: nat) returns (schedule: seq<Move>, successes: int)
    requires s.b.status.HalfOpen? && u < |s.threads| && s.threads[u].Resting?
    ensures StaysHalfOpen(s, schedule)
    ensures Moves(s, schedule) == Goto(s.(b := s.b.(successes := successes)), u, Locking(Closed, false))
    decreases Max(0, Quot(s.b.maxRequests, 2) - s.b.successes)
  {
    var record := [Move(u, CallSuccess)] + Going(u, 0, 2);
    var s1 := Take(s, Move(u, CallSuccess));
    var s2 := Take(s1, Move(u, Continue(0)));
    var s3 := Take(s2, Move(u, Continue(0)));
    assert record[1..] == Going(u, 0, 2);
    GoOn(s1, u, 0, 2);
    GoOn(s2, u, 0, 1);
    assert s2 == Goto(s, u, CountSuccess);
    assert s3 == Goto(s.(b := s.b.(successes := s.b.successes + 1)), u, s3.threads[u]);
    if s3.threads[u].Resting? {
      var more: seq<Move>;
      more, successes := RecordsUntilClosing(s3, u);
      schedule := record + more;
      Then(s, record, more);
      assert s3.threads[u := Locking(Closed, false)] == s.threads[u := Locking(Closed, false)];
    } else {
      schedule, successes := record, s3.b.successes;
    }
  }

  /** And goes on until it has reset the half-open counter but not stored the new state. */
  lemma ClosesLate(s: State, u: nat) returns (schedule: seq<Move>)
    requires s.b.status.HalfOpen? && s.lock.None? && u < |s.threads| && s.threads[u].Resting?
    ensures StaysHalfOpen(s, schedule)
    ensures var s' := Moves(s, schedule);
            && s'.b == s.b.(failures := 0, successes := 0, halfOpenRequests := 0) && Admitted(s') == Admitted(s)
            && s'.threads == s.threads[u := Storing(Closed, 3, false)] && s'.lock == Some(u)
  {
    var first, successes := RecordsUntilClosing(s, u);
    var go := Move(u, Continue(0));
    var s1 := Moves(s, first);
    var s2 := Take(s1, go);
    var s3 := Take(s2, go);
    var s4 := Take(s3, go);
    var s5 := Take(s4, go);
    GoOn(s1, u, 0, 4);
    GoOn(s2, u, 0, 3);
    GoOn(s3, u, 0, 2);
    GoOn(s4, u, 0, 1);
    schedule := first + Going(u, 0, 4);
    Then(s, first, Going(u, 0, 4));
    assert s5.threads == s.threads[u := Storing(Closed, 3, false)];
  }

  /** The share, a closing transition that has reset the counter, and one more quota. */
  lemma ShareAndQuota(s: State, t: nat, u: nat) returns (schedule: seq<Move>)
    requires Starts(s, t, u) && t != u
    ensures StaysHalfOpen(s, schedule) && InEpisode(s, schedule) == Share(s) + Quota(s.b)
  {
    var first := WholeShare(s, t);
    var s1 := Moves(s, first);
    var closing := ClosesLate(s1, u);
    var s2 := Moves(s1, closing);
    AskingUsesQuota(s2, t, Quota(s.b));
    schedule := first + (closing + Asking(t, Quota(s.b)));
    Then(s1, closing, Asking(t, Quota(s.b)));
    Then(s, first, closing + Asking(t, Quota(s.b)));
  }

  // ---- Exactly how many ----

  /** No course of the episode admits more than this many callers. */
  ghost predicate AtMost(s: State, limit: int) {
    forall schedule :: StaysHalfOpen(s, schedule) ==> InEpisode(s, schedule) <= limit
  }

  /** The same for the part of the episode before a closing transition has reset the counter. */
  ghost predicate AtMostBeforeClosing(s: State, limit: int) {
    forall schedule ::
      StaysHalfOpen(s, schedule) && !ClosingLate(Moves(s, schedule)) ==> InEpisode(s, schedule) <= limit
  }

  /** Exactly what an episode can admit, with two threads free when it starts: the share and one quota. */
  lemma EpisodeMaximum(s: State, t: nat, u: nat, limit: int)
    requires Starts(s, t, u) && t != u
    ensures AtMost(s, limit) <==> Share(s) + Quota(s.b) <= limit
  {
    forall schedule | StaysHalfOpen(s, schedule)
      ensures InEpisode(s, schedule) <= Share(s) + Quota(s.b)
    {
      EpisodeBound(s, schedule);
    }
    var most := ShareAndQuota(s, t, u);
    assert AtMost(s, limit) ==> InEpisode(s, most) <= limit;
  }

  /** And before closing: the share. */
  lemma BeforeClosingMaximum(s: State, t: nat, limit: int)
    requires Starts(s, t, t)
    ensures AtMostBeforeClosing(s, limit) <==> Share(s) <= limit
  {
    forall schedule | StaysHalfOpen(s, schedule) && !ClosingLate(Moves(s, schedule))
      ensures InEpisode(s, schedule) <= Share(s)
    {
      EpisodeBound(s, schedule);
    }
    var most := WholeShare(s, t);
    assert AtMostBeforeClosing(s, limit) ==> InEpisode(s, most) <= limit;
  }

  /** So maxRequests + 1 holds for the whole episode exactly if no other caller that saw the breaker open
      is still under way and the quota is used up when it starts, and before closing exactly if no such
      caller is. */
  lemma EpisodeAdmitsFewIff(s: State, t: nat, u: nat)
    requires Starts(s, t, u) && t != u
    ensures AtMost(s, Quota(s.b) + 1)
            <==> s.b.halfOpenRequests >= s.b.maxRequests && forall w :: 0 <= w < |s.threads| ==> !SawOpen(s.threads[w])
    ensures AtMostBeforeClosing(s, Quota(s.b) + 1)
            <==> forall w :: 0 <= w < |s.threads| ==> !SawOpen(s.threads[w])
  {
    EpisodeMaximum(s, t, u, Quota(s.b) + 1);
    BeforeClosingMaximum(s, t, Quota(s.b) + 1);
    NoSeers(s.threads);
    OneShare(Seers(s.threads), Quota(s.b), Used(s.b));
  }

  lemma OneShare(n: nat, q: nat, used: int)
    requires 0 <= used <= q
    ensures (1 + n) * (q + 1) - used <= q + 1 <==> n == 0
    ensures (1 + n) * (q + 1) - used + q <= q + 1 <==> n == 0 && used == q
  {
    OneMore(n, q + 1);
    if n > 0 {
      OneMore(n - 1, q + 1);
      assert (n - 1) * (q + 1) >= 0;
    }
  }

  // ---- One call at a time ----

  /** A thread acting k times in a row. */
  function Ops(x: Own, t: nat, now: int, k: nat): Own
    decreases k
  {
    if k == 0 then x else Ops(Op(x, t, now), t, now, k - 1)
  }

  lemma {:induction false} GoingActs(s: State, t: nat, now: int, k: nat)
    requires t < |s.threads|
    ensures Moves(s, Going(t, now, k)) == Install(s, t, Ops(OwnOf(s, t), t, now, k))
    decreases k
  {
    if k == 0 {
      assert s.threads[t := s.threads[t]] == s.threads;
    } else {
      var s' := Take(s, Move(t, Continue(now)));
      GoOn(s, t, now, k);
      GoingActs(s', t, now, k - 1);
      InstallTwice(s, t, OwnOf(s', t), Ops(OwnOf(s', t), t, now, k - 1));
    }
  }

  lemma InstallTwice(s: State, t: nat, x: Own, y: Own)
    requires t < |s.threads|
    ensures Install(Install(s, t, x), t, y) == Install(s, t, y) && OwnOf(Install(s, t, x), t) == x
  {
    assert s.threads[t := x.pc][t := y.pc] == s.threads[t := y.pc];
  }

  lemma {:induction false} Rests(x: Own, t: nat, now: int, k: nat)
    requires x.pc.Resting?
    ensures Ops(x, t, now, k) == x
    decreases k
  {
    if k > 0 {
      Rests(x, t, now, k - 1);
    }
  }

  /** The holder of the lock does its stores from the j-th on, gives the lock back and goes on. */
  lemma {:induction false} StoresActs(x: Own, t: nat, now: int, j: nat, k: nat)
    requires x.pc.Storing? && x.pc.stored == j <= Stores(x.pc.target) && k >= Stores(x.pc.target) - j + 1
    ensures var enters := if x.pc.target.HalfOpen? && j == 0 then 1 else 0;
            Ops(x, t, now, k)
            == Ops(Own(AllStored(x.b, x.pc.target, j), None, if x.pc.backoff then ReadTimeout else Resting,
                        x.entered + enters, x.probed), t, now, k - (Stores(x.pc.target) - j + 1))
    decreases Stores(x.pc.target) - j
  {
    if j < Stores(x.pc.target) {
      StoresActs(Op(x, t, now), t, now, j + 1, k - 1);
    }
  }

  /** A transition that nobody holds up, and what follows. */
  lemma TransitionActs(x: Own, t: nat, now: int, k: nat)
    requires x.pc.Locking? && x.lock.None? && k >= Stores(x.pc.target) + 2
    ensures var enters := if x.pc.target.HalfOpen? then 1 else 0;
            Ops(x, t, now, k)
            == Ops(Own(Transition(x.b, x.pc.target), None, if x.pc.backoff then ReadTimeout else Resting,
                        x.entered + enters, x.probed), t, now, k - Stores(x.pc.target) - 2)
  {
    StoresActs(Op(x, t, now), t, now, 0, k - 1);
    StoresMakeTransition(x.b, x.pc.target);
  }

  function EventOf(r: Request, now: int): Event
    requires !r.Continue?
  {
    match r
    case CallAllow => Allow(now)
    case CallSuccess => Success
    case CallFailure => Failure(now)
    case CallReset => Reset
  }

  /** What a call leaves if nobody interferes. */
  predicate Undisturbed(b: Breaker, x: Own, e: Event) {
    x.b == Step(b, e) && x.lock.None? && x.pc.Resting?
  }

  lemma AllowActs(x: Own, t: nat, now: int, k: nat)
    requires x.pc.LoadState? && x.lock.None? && k >= 8
    ensures var y := Ops(x, t, now, k);
            && Undisturbed(x.b, y, Allow(now))
            && (!x.b.status.Closed? ==>
                  y.entered + y.probed == x.entered + x.probed + if Allowed(x.b, now) then 1 else 0)
  {
    var x1 := Op(x, t, now);
    var x2 := Op(x1, t, now);
    assert Ops(x, t, now, k) == Ops(x1, t, now, k - 1) == Ops(x2, t, now, k - 2);
    if x.b.status.Open? {
      var x3 := Op(x2, t, now);
      assert Ops(x2, t, now, k - 2) == Ops(x3, t, now, k - 3);
      if x3.pc.Locking? {
        TransitionActs(x3, t, now, k - 3);
        Rests(Own(Transition(x.b, HalfOpen), None, Resting, x.entered + 1, x.probed), t, now, k - 8);
      } else {
        Rests(x3, t, now, k - 3);
      }
    } else {
      Rests(x2, t, now, k - 2);
    }
  }

  lemma SuccessActs(x: Own, t: nat, now: int, k: nat)
    requires x.pc.LoadForSuccess? && x.lock.None? && k >= 9
    ensures Undisturbed(x.b, Ops(x, t, now, k), Success)
  {
    var x1 := Op(x, t, now);
    var x2 := Op(x1, t, now);
    assert Ops(x, t, now, k) == Ops(x1, t, now, k - 1) == Ops(x2, t, now, k - 2);
    if x2.pc.Locking? {
      TransitionActs(x2, t, now, k - 2);
      Rests(Own(Transition(x2.b, Closed), None, Resting, x.entered, x.probed), t, now, k - 9);
    } else {
      Rests(x2, t, now, k - 2);
    }
  }

  lemma BackoffActs(x: Own, t: nat, now: int, k: nat)
    requires x.pc.ReadTimeout? && k >= 4
    ensures Ops(x, t, now, k) == x.(b := x.b.(timeout := Min(x.b.timeout * 2, MAX_TIMEOUT)), pc := Resting)
  {
    var x1 := Op(x, t, now);
    var x2 := Op(x1, t, now);
    var x3 := Op(x2, t, now);
    var x4 := Op(x3, t, now);
    assert Ops(x, t, now, k) == Ops(x1, t, now, k - 1) == Ops(x2, t, now, k - 2);
    assert Ops(x2, t, now, k - 2) == Ops(x3, t, now, k - 3) == Ops(x4, t, now, k - 4);
    Rests(x4, t, now, k - 4);
  }

  lemma FailureActs(x: Own, t: nat, now: int, k: nat)
    requires x.pc.StampFailure? && x.lock.None? && k >= 11
    ensures Undisturbed(x.b, Ops(x, t, now, k), Failure(now))
  {
    var x1 := Op(x, t, now);
    var x2 := Op(x1, t, now);
    var x3 := Op(x2, t, now);
    assert Ops(x, t, now, k) == Ops(x1, t, now, k - 1) == Ops(x2, t, now, k - 2);
    if x.b.status.HalfOpen? {
      TransitionActs(x2, t, now, k - 2);
      BackoffActs(Own(Transition(x2.b, Open), None, ReadTimeout, x.entered, x.probed), t, now, k - 7);
    } else {
      assert Ops(x2, t, now, k - 2) == Ops(x3, t, now, k - 3);
      if x3.pc.Locking? {
        TransitionActs(x3, t, now, k - 3);
        Rests(Own(Transition(x3.b, Open), None, Resting, x.entered, x.probed), t, now, k - 8);
      } else {
        Rests(x3, t, now, k - 3);
      }
    }
  }

  lemma ResetActs(x: Own, t: nat, now: int, k: nat)
    requires x.pc == Locking(Closed, false) && x.lock.None? && k >= 7
    ensures Undisturbed(x.b, Ops(x, t, now, k), Reset)
  {
    TransitionActs(x, t, now, k);
    Rests(Own(Transition(x.b, Closed), None, Resting, x.entered, x.probed), t, now, k - 7);
  }

  lemma CallActs(x: Own, t: nat, r: Request, now: int, k: nat)
    requires !r.Continue? && x.pc == FirstPc(r) && x.lock.None? && k >= 11
    ensures var y := Ops(x, t, now, k);
            && Undisturbed(x.b, y, EventOf(r, now))
            && (r.CallAllow? && !x.b.status.Closed? ==>
                  y.entered + y.probed == x.entered + x.probed + if Allowed(x.b, now) then 1 else 0)
  {
    match r {
      case CallAllow => AllowActs(x, t, now, k);
      case CallSuccess => SuccessActs(x, t, now, k);
      case CallFailure => FailureActs(x, t, now, k);
      case CallReset => ResetActs(x, t, now, k);
    }
  }

  /** A call that nobody interferes with, given 11 moves or more, does what the atomic breaker's step
      says, and AllowRequest admits exactly if the atomic test does. */
  lemma SoloCall(s: State, t: nat, r: Request, now: int, k: nat)
    requires t < |s.threads| && s.threads[t].Resting? && s.lock.None? && !r.Continue? && k >= 11
    ensures var s' := Moves(s, [Move(t, r)] + Going(t, now, k));
            && s'.b == Step(s.b, EventOf(r, now)) && s'.threads == s.threads && s'.lock.None?
            && (r.CallAllow? && !s.b.status.Closed? ==>
                  Admitted(s') == Admitted(s) + if Allowed(s.b, now) then 1 else 0)
  {
    var s1 := Take(s, Move(t, r));
    assert ([Move(t, r)] + Going(t, now, k))[1..] == Going(t, now, k);
    GoingActs(s1, t, now, k);
    CallActs(OwnOf(s1, t), t, r, now, k);
    assert s1.threads[t := Resting] == s.threads;
  }

  // ---- From a fresh breaker ----

  function Start(maxFailures: int, timeout: int, threads: nat): State {
    State(Fresh(maxFailures, timeout), None, seq(threads, _ => Resting), 0, 0)
  }

  lemma {:induction false} OpensAfterFailures(s: State, t: nat) returns (schedule: seq<Move>)
    requires s.b.status.Closed? && s.b.failures < s.b.maxFailures
    requires t < |s.threads| && s.threads[t].Resting? && s.lock.None?
    ensures var s' := Moves(s, schedule);
            && s'.b.status.Open? && s'.b.maxRequests == s.b.maxRequests && s'.threads == s.threads && s'.lock.None?
    decreases s.b.maxFailures - s.b.failures
  {
    schedule := [Move(t, CallFailure)] + Going(t, 0, 11);
    SoloCall(s, t, CallFailure, 0, 11);
    var s' := Moves(s, schedule);
    if s'.b.status.Closed? {
      var more := OpensAfterFailures(s', t);
      Then(s, schedule, more);
      schedule := schedule + more;
    }
  }

  /** From a fresh breaker, calls made one after the other lead to an episode in which nobody else had
      seen the breaker open. */
  lemma FreshEpisode(maxFailures: int, timeout: int, threads: nat) returns (schedule: seq<Move>)
    requires maxFailures >= 1 && threads >= 2
    ensures var s := Moves(Start(maxFailures, timeout, threads), schedule);
            && Starts(s, 0, 1) && Seers(s.threads) == 0
            && s.b.maxRequests == Quot(maxFailures, 2) && s.b.halfOpenRequests == 0
  {
    var start := Start(maxFailures, timeout, threads);
    var failing := OpensAfterFailures(start, 0);
    var open := Moves(start, failing);
    var late := open.b.lastFailure + open.b.timeout + 1;
    var entering := [Move(0, CallAllow)] + Going(0, late, 11);
    SoloCall(open, 0, CallAllow, late, 11);
    Then(start, failing, entering);
    schedule := failing + entering;
    NoSeers(Moves(start, schedule).threads);
  }

  /** Even then the closing transition lets more in: such an episode can admit 2 x maxRequests + 1 callers
      and no more. */
  lemma ClosingAdmitsMore(maxFailures: int, timeout: int, threads: nat)
    requires maxFailures >= 1 && threads >= 2
    ensures exists opening ::
              var s := Moves(Start(maxFailures, timeout, threads), opening);
              && Starts(s, 0, 1) && Seers(s.threads) == 0
              && forall limit :: AtMost(s, limit) <==> 2 * Quot(maxFailures, 2) + 1 <= limit
  {
    var opening := FreshEpisode(maxFailures, timeout, threads);
    var s := Moves(Start(maxFailures, timeout, threads), opening);
    forall limit
      ensures AtMost(s, limit) <==> 2 * Quot(maxFailures, 2) + 1 <= limit
    {
      EpisodeMaximum(s, 0, 1, limit);
    }
  }

  // ---- Two callers at once ----

  /** Two threads at the same place. */
  function Together(s: State, t: nat, w: nat, pc: Pc): State
    requires t < |s.threads| && w < |s.threads|
  {
    s.(threads := s.threads[t := pc][w := pc])
  }

  function Pair(t: nat, w: nat, r: Request): seq<Move> {
    [Move(t, r), Move(w, r)]
  }

  lemma TwoMoves(s: State, first: Move, second: Move)
    ensures Moves(s, [first, second]) == Take(Take(s, first), second)
  {
    assert [first, second][1..] == [second] && [second][1..] == [];
    assert Moves(Take(s, first), [second]) == Take(Take(s, first), second);
  }

  lemma PairCalls(s: State, t: nat, w: nat)
    requires t < |s.threads| && w < |s.threads| && t != w && s.threads[t].Resting? && s.threads[w].Resting?
    ensures Moves(s, Pair(t, w, CallAllow)) == Together(s, t, w, LoadState)
  {
    TwoMoves(s, Move(t, CallAllow), Move(w, CallAllow));
  }

  /** Where a caller goes next if the breaker is open and the timeout over. */
  function NextPc(b: Breaker, pc: Pc): Pc {
    match pc
    case LoadState => LoadLastFailure
    case LoadLastFailure => TestTimeout(b.lastFailure)
    case _ => Locking(HalfOpen, false)
  }

  lemma PairGoesOn(s: State, t: nat, w: nat, now: int, pc: Pc)
    requires s.b.status.Open? && t < |s.threads| && w < |s.threads| && t != w && now - s.b.lastFailure > s.b.timeout
    requires pc in {LoadState, LoadLastFailure, TestTimeout(s.b.lastFailure)}
    ensures Moves(Together(s, t, w, pc), Pair(t, w, Continue(now))) == Together(s, t, w, NextPc(s.b, pc))
  {
    var next := NextPc(s.b, pc);
    TwoMoves(Together(s, t, w, pc), Move(t, Continue(now)), Move(w, Continue(now)));
    var s1 := Take(Together(s, t, w, pc), Move(t, Continue(now)));
    assert s1.threads == s.threads[t := next][w := pc];
    assert Take(s1, Move(w, Continue(now))).threads == s.threads[t := next][w := next];
  }

  lemma BothPass(s: State, t: nat, w: nat, now: int) returns (schedule: seq<Move>)
    requires s.b.status.Open? && t < |s.threads| && w < |s.threads| && t != w && now - s.b.lastFailure > s.b.timeout
    requires s.threads[t].Resting? && s.threads[w].Resting?
    ensures Moves(s, schedule) == Together(s, t, w, Locking(HalfOpen, false))
  {
    var call, pair := Pair(t, w, CallAllow), Pair(t, w, Continue(now));
    PairCalls(s, t, w);
    PairGoesOn(s, t, w, now, LoadState);
    PairGoesOn(s, t, w, now, LoadLastFailure);
    PairGoesOn(s, t, w, now, TestTimeout(s.b.lastFailure));
    Then(s, call, pair);
    Then(s, call + pair, pair);
    Then(s, call + pair + pair, pair);
    schedule := call + pair + pair + pair;
  }

  /** Two callers that ask an open breaker at the same time, late enough: the first makes it half-open
      while the second has passed the timeout test and waits for the lock to do the same. */
  lemma Overlap(s: State, t: nat, w: nat) returns (schedule: seq<Move>)
    requires s.b.status.Open? && s.lock.None? && t < |s.threads| && w < |s.threads| && t != w
    requires s.threads[t].Resting? && s.threads[w].Resting?
    ensures Moves(s, schedule) == Goto(s.(b := Transition(s.b, HalfOpen), entered := s.entered + 1), w,
                                       Locking(HalfOpen, false))
  {
    var now := s.b.lastFailure + s.b.timeout + 1;
    var passing := BothPass(s, t, w, now);
    var s1 := Together(s, t, w, Locking(HalfOpen, false));
    TransitionAlone(s1, t, now);
    schedule := passing + Going(t, now, 5);
    Then(s, passing, Going(t, now, 5));
    assert s1.threads[t := Resting] == s.threads[w := Locking(HalfOpen, false)];
  }

  /** From a fresh breaker, with two threads or more, an episode is reachable that admits more than
      maxRequests + 1 callers before any closing transition. */
  lemma OverlapIsReachable(maxFailures: int, timeout: int, threads: nat)
    requires maxFailures >= 1 && threads >= 2
    ensures exists opening ::
              var s := Moves(Start(maxFailures, timeout, threads), opening);
              Starts(s, 0, 0) && !AtMostBeforeClosing(s, Quota(s.b) + 1)
  {
    var start := Start(maxFailures, timeout, threads);
    var failing := OpensAfterFailures(start, 0);
    var open := Moves(start, failing);
    var overlap := Overlap(open, 0, 1);
    Then(start, failing, overlap);
    var s := Moves(start, failing + overlap);
    NoSeers(s.threads);
    assert SawOpen(s.threads[1]);
    BeforeClosingMaximum(s, 0, Quota(s.b) + 1);
    OneMore(Seers(s.threads), Quota(s.b) + 1);
    OneMore(Seers(s.threads) - 1, Quota(s.b) + 1);
    assert (Seers(s.threads) - 1) * (Quota(s.b) + 1) >= 0;
    assert !AtMostBeforeClosing(s, Quota(s.b) + 1);
  }
}
