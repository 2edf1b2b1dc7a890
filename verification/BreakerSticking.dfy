/** Which breakers can get stuck half-open at all: exactly those with a large enough maxFailures and enough
    concurrent callers. */
module BreakerSticking {
  import opened Arith
  import opened CircuitBreaker
  import opened Collections
  import opened BreakerMachine
  import opened BreakerProgress

  function Begin(maxFailures: int, timeout: int, threads: nat): Client {
    Client(Start(maxFailures, timeout, threads), {})
  }

  /** Some run of this many callers from a fresh breaker ends stuck. */
  ghost predicate CanStick(maxFailures: int, timeout: int, threads: nat) {
    exists schedule :: Stuck(Does(Begin(maxFailures, timeout, threads), schedule))
  }

  // ---- What holds at every moment of every run ----

  /** Threads that loaded a half-open state and are about to be counted. */
  function Probers(threads: seq<Pc>): nat {
    if threads == [] then 0
    else Probers(threads[..|threads| - 1]) + if threads[|threads| - 1].CountProbe? then 1 else 0
  }

  lemma {:induction false} ProbersUpdate(threads: seq<Pc>, t: nat, pc: Pc)
    requires t < |threads|
    ensures Probers(threads[t := pc])
            == Probers(threads) - (if threads[t].CountProbe? then 1 else 0) + if pc.CountProbe? then 1 else 0
  {
    var last := |threads| - 1;
    if t == last {
      assert threads[t := pc][..last] == threads[..last];
    } else {
      assert threads[t := pc][..last] == threads[..last][t := pc];
      ProbersUpdate(threads[..last], t, pc);
    }
  }

  lemma {:induction false} ProbersFit(threads: seq<Pc>)
    ensures Probers(threads) <= |threads|
  {
    if threads != [] {
      ProbersFit(threads[..|threads| - 1]);
    }
  }

  lemma SomeoneElse(threads: seq<Pc>, t: nat)
    requires t < |threads| && !threads[t].CountProbe?
    ensures Probers(threads) <= |threads| - 1
  {
    ProbersUpdate(threads, t, CountProbe);
    ProbersFit(threads[t := CountProbe]);
  }

  /** The thread is between its reset of the half-open counter and its store of the half-open state. */
  predicate Restarts(pc: Pc) {
    pc.Storing? && pc.target.HalfOpen? && 1 <= pc.stored < Stores(HalfOpen)
  }

  /** While a caller is starting an episode, each other thread is counted at most once: it loads the state
      anew afterwards. */
  ghost predicate CountedOnce(c: Client) {
    !c.s.b.status.HalfOpen? && (exists t :: 0 <= t < |c.s.threads| && Restarts(c.s.threads[t])) ==>
      c.s.b.halfOpenRequests + Probers(c.s.threads) <= |c.s.threads| - 1
  }

  lemma DoKeepsCountedOnce(c: Client, m: Move)
    requires Sound(c) && CountedOnce(c)
    ensures CountedOnce(Do(c, m))
  {
    var c', t := Do(c, m), m.thread;
    if t < |c.s.threads| && !c'.s.b.status.HalfOpen? {
      if u :| 0 <= u < |c'.s.threads| && Restarts(c'.s.threads[u]) {
        if Restarts(c.s.threads[u]) {
          OneProbeLess(c, m, u);
          ProbersUpdate(c.s.threads, t, c'.s.threads[t]);
        } else {
          assert u == t && c'.s.b.halfOpenRequests == 0;
          SomeoneElse(c'.s.threads, t);
        }
      }
    }
  }

  /** A move while a caller is starting an episode. */
  lemma OneProbeLess(c: Client, m: Move, u: nat)
    requires Sound(c) && !Do(c, m).s.b.status.HalfOpen? && m.thread < |c.s.threads|
    requires u < |c.s.threads| && Restarts(c.s.threads[u]) && Restarts(Do(c, m).s.threads[u])
    ensures var c', t := Do(c, m), m.thread;
            && !c.s.b.status.HalfOpen? && c'.s.threads == c.s.threads[t := c'.s.threads[t]]
            && c'.s.b.halfOpenRequests + (if c'.s.threads[t].CountProbe? then 1 else 0)
               == c.s.b.halfOpenRequests + if c.s.threads[t].CountProbe? then 1 else 0
  {
  }

  /** One success is enough to close the breaker, or so few callers can be counted early that those still
      to be admitted are enough. */
  predicate Safe(b: Breaker, threads: nat) {
    Needed(b) <= 1 || threads <= b.maxRequests - Needed(b) + 2
  }

  /** Everything together, for a breaker that is safe. */
  ghost predicate Kept(c: Client) {
    && Sound(c) && Counted(c) && CountedOnce(c) && Safe(c.s.b, |c.s.threads|)
    && (c.s.b.status.HalfOpen? ==> Hopeful(c))
  }

  /** The store of the half-open state. */
  lemma EntryIsPromising(c: Client, m: Move)
    requires Kept(c) && !c.s.b.status.HalfOpen? && Do(c, m).s.b.status.HalfOpen?
    ensures Promising(Do(c, m))
  {
    var c', t := Do(c, m), m.thread;
    EntryMove(c, m);
    assert c.s.b.halfOpenRequests <= |c.s.threads| - 1;
    NobodyUnderWay(c'.s.threads, c'.serving);
  }

  lemma EntryMove(c: Client, m: Move)
    requires Sound(c) && !c.s.b.status.HalfOpen? && Do(c, m).s.b.status.HalfOpen?
    ensures var c', t := Do(c, m), m.thread;
            && t < |c.s.threads| && Restarts(c.s.threads[t]) && |c'.s.threads| == |c.s.threads|
            && Enters(c'.s.threads[t]) && c'.s.b == c.s.b.(status := HalfOpen)
            && forall u :: 0 <= u < |c'.s.threads| ==> !Resets(c'.s.threads[u])
  {
  }

  lemma DoKeeps(c: Client, m: Move)
    requires Kept(c)
    ensures Kept(Do(c, m))
  {
    DoKeepsSound(c, m);
    DoKeepsCounted(c, m);
    DoKeepsCountedOnce(c, m);
    SameSize(c, m);
    if Do(c, m).s.b.status.HalfOpen? {
      if c.s.b.status.HalfOpen? {
        DoKeepsHopeful(c, m);
      } else {
        EntryIsPromising(c, m);
      }
    }
  }

  lemma SameSize(c: Client, m: Move)
    ensures |Do(c, m).s.threads| == |c.s.threads| && Do(c, m).s.b.maxRequests == c.s.b.maxRequests
  {
  }

  lemma {:induction false} RunKeeps(c: Client, schedule: seq<Move>)
    requires Kept(c)
    ensures Kept(Does(c, schedule))
    decreases |schedule|
  {
    if schedule != [] {
      DoKeeps(c, schedule[0]);
      RunKeeps(Do(c, schedule[0]), schedule[1..]);
    }
  }

  lemma {:induction false} RunIsSound(c: Client, schedule: seq<Move>)
    requires Sound(c) && Counted(c)
    ensures Sound(Does(c, schedule)) && Counted(Does(c, schedule))
    decreases |schedule|
  {
    if schedule != [] {
      DoKeepsSound(c, schedule[0]);
      DoKeepsCounted(c, schedule[0]);
      RunIsSound(Do(c, schedule[0]), schedule[1..]);
    }
  }

  lemma SafeNeverSticks(maxFailures: int, timeout: int, threads: nat, schedule: seq<Move>)
    requires Safe(Fresh(maxFailures, timeout), threads)
    ensures !Stuck(Does(Begin(maxFailures, timeout, threads), schedule))
  {
    var begin := Begin(maxFailures, timeout, threads);
    RunKeeps(begin, schedule);
    if Stuck(Does(begin, schedule)) {
      StuckIsHopeless(Does(begin, schedule));
    }
  }

  /** In any run, an episode never gets stuck from a moment on at which its counter is zero and a caller is
      running or about to be admitted by its transition, whatever the other callers are doing. */
  lemma FreshEpisodeNeverSticks(maxFailures: int, timeout: int, threads: nat, opening: seq<Move>,
                                t: nat, schedule: seq<Move>)
    requires var c := Does(Begin(maxFailures, timeout, threads), opening);
             && c.s.b.status.HalfOpen? && c.s.b.halfOpenRequests == 0
             && t < |c.s.threads| && (t in c.serving || Enters(c.s.threads[t]))
    ensures !Sticks(Does(Begin(maxFailures, timeout, threads), opening), schedule)
  {
    var begin := Begin(maxFailures, timeout, threads);
    var c := Does(begin, opening);
    RunIsSound(begin, opening);
    NobodyUnderWay(c.s.threads, c.serving);
    EnoughDecides(c);
    assert !Decided(c) ==> Promising(c);
    HopefulDoesNotStick(c, schedule);
  }

  // ---- Late probes ----

  /** Whether a thread is admitted somewhere in its next k moves. */
  predicate Served(x: Own, t: nat, now: int, k: nat)
    decreases k
  {
    k > 0 && (Admits(x) || Served(Op(x, t, now), t, now, k - 1))
  }

  lemma {:induction false} GoingDoes(c: Client, t: nat, now: int, k: nat)
    requires t < |c.s.threads|
    ensures var x := OwnOf(c.s, t);
            Does(c, Going(t, now, k))
            == Client(Install(c.s, t, Ops(x, t, now, k)), if Served(x, t, now, k) then c.serving + {t} else c.serving)
    decreases k
  {
    var x := OwnOf(c.s, t);
    if k == 0 {
      assert c.s.threads[t := c.s.threads[t]] == c.s.threads;
    } else {
      var c' := Do(c, Move(t, Continue(now)));
      assert Going(t, now, k)[1..] == Going(t, now, k - 1);
      GoingDoes(c', t, now, k - 1);
      InstallTwice(c.s, t, Op(x, t, now), Ops(Op(x, t, now), t, now, k - 1));
    }
  }

  /** Recording an outcome admits nobody. */
  predicate Records(pc: Pc) {
    pc.Resting? || !(pc.LoadState? || pc.LoadLastFailure? || pc.TestTimeout? || pc.CountProbe?
                     || ((pc.Locking? || pc.Storing?) && pc.target.HalfOpen?))
  }

  lemma {:induction false} RecordsUnserved(x: Own, t: nat, now: int, k: nat)
    requires Records(x.pc)
    ensures !Served(x, t, now, k)
    decreases k
  {
    if k > 0 {
      RecordsUnserved(Op(x, t, now), t, now, k - 1);
    }
  }

  /** A call on its own, as a disciplined caller's move. */
  function Alone(t: nat, r: Request, now: int, k: nat): seq<Move> {
    [Move(t, r)] + Going(t, now, k)
  }

  lemma AloneDoes(c: Client, t: nat, r: Request, now: int, k: nat)
    requires t < |c.s.threads|
    ensures Does(c, Alone(t, r, now, k)) == Does(Do(c, Move(t, r)), Going(t, now, k))
  {
    assert Alone(t, r, now, k)[1..] == Going(t, now, k);
  }

  /** A failure recorded on its own. */
  lemma FailsAlone(c: Client, t: nat, k: nat)
    requires t < |c.s.threads| && t in c.serving && c.s.threads[t].Resting? && c.s.lock.None? && k >= 11
    ensures var c' := Does(c, Alone(t, CallFailure, 0, k));
            && c'.s.b == Step(c.s.b, Failure(0)) && c'.s.threads == c.s.threads && c'.s.lock.None?
            && c'.serving == c.serving - {t}
  {
    var c1 := Do(c, Move(t, CallFailure));
    AloneDoes(c, t, CallFailure, 0, k);
    GoingDoes(c1, t, 0, k);
    RecordsUnserved(OwnOf(c1.s, t), t, 0, k);
    FailureActs(OwnOf(c1.s, t), t, 0, k);
    assert c1.s.threads[t := Resting] == c.s.threads;
  }

  /** A closed breaker lets a caller in. */
  lemma EntersClosed(c: Client, t: nat)
    requires t < |c.s.threads| && t !in c.serving && c.s.threads[t].Resting? && c.s.b.status.Closed?
    ensures Does(c, Brief(t, CallAllow)) == Client(c.s, c.serving + {t})
  {
    BriefDoes(c, t, CallAllow);
    assert c.s.threads[t := LoadState][t := Resting] == c.s.threads;
  }

  lemma {:induction false} OpensByFailing(c: Client, t: nat) returns (schedule: seq<Move>)
    requires c.s.b.status.Closed? && c.s.b.failures < c.s.b.maxFailures && c.s.lock.None?
    requires t < |c.s.threads| && t !in c.serving && c.s.threads[t].Resting?
    ensures var c' := Does(c, schedule);
            && c'.s.b.status.Open? && c'.s.b.maxRequests == c.s.b.maxRequests && c'.s.threads == c.s.threads
            && c'.s.lock.None? && c'.serving == c.serving
    decreases c.s.b.maxFailures - c.s.b.failures
  {
    var k := 11;
    EntersClosed(c, t);
    var c1 := Does(c, Brief(t, CallAllow));
    FailsAlone(c1, t, k);
    schedule := Brief(t, CallAllow) + Alone(t, CallFailure, 0, k);
    DoesThen(c, Brief(t, CallAllow), Alone(t, CallFailure, 0, k));
    var c' := Does(c, schedule);
    if c'.s.b.status.Closed? {
      var more := OpensByFailing(c', t);
      DoesThen(c, schedule, more);
      schedule := schedule + more;
    }
  }

  /** A late caller of an open breaker up to the point where it has reset the half-open counter. */
  lemma LateOps(x: Own, t: nat, now: int, k: nat)
    requires x.pc.LoadState? && x.b.status.Open? && x.lock.None? && now - x.b.lastFailure > x.b.timeout && k == 5
    ensures Ops(x, t, now, k)
            == Own(x.b.(halfOpenRequests := 0), Some(t), Storing(HalfOpen, 1, false), x.entered + 1, x.probed)
    ensures !Served(x, t, now, k)
  {
    var x1 := Op(x, t, now);
    var x2 := Op(x1, t, now);
    var x3 := Op(x2, t, now);
    var x4 := Op(x3, t, now);
    var x5 := Op(x4, t, now);
    assert Ops(x, t, now, k) == Ops(x1, t, now, k - 1) == Ops(x2, t, now, k - 2);
    assert Ops(x2, t, now, k - 2) == Ops(x3, t, now, k - 3) == Ops(x4, t, now, k - 4) == x5;
    assert Served(x, t, now, k) == Served(x1, t, now, k - 1) == Served(x2, t, now, k - 2);
    assert Served(x2, t, now, k - 2) == Served(x3, t, now, k - 3) == Served(x4, t, now, k - 4);
  }

  /** And from there on. */
  lemma LastStores(x: Own, t: nat, now: int, k: nat)
    requires x.pc == Storing(HalfOpen, 1, false) && k == 3
    ensures Ops(x, t, now, k) == Own(x.b.(successes := 0, status := HalfOpen), None, Resting, x.entered, x.probed)
    ensures Served(x, t, now, k)
  {
    var x1 := Op(x, t, now);
    var x2 := Op(x1, t, now);
    var x3 := Op(x2, t, now);
    assert Ops(x, t, now, k) == Ops(x1, t, now, k - 1) == Ops(x2, t, now, k - 2) == x3;
    assert Served(x2, t, now, k - 2);
    assert Served(x1, t, now, k - 1);
  }

  /** The threads j to q ask a half-open breaker and are about to be counted. */
  lemma {:induction false} LineUp(c: Client, j: nat, q: nat) returns (schedule: seq<Move>)
    requires c.s.b.status.HalfOpen? && q < |c.s.threads|
    requires forall i: nat :: j <= i <= q ==> c.s.threads[i].Resting? && i !in c.serving
    ensures var c' := Does(c, schedule);
            && c' == Client(c.s.(threads := c'.s.threads), c.serving) && |c'.s.threads| == |c.s.threads|
            && forall i :: 0 <= i < |c.s.threads| ==>
                 c'.s.threads[i] == if j <= i <= q then CountProbe else c.s.threads[i]
    decreases q + 1 - j
  {
    if j > q {
      schedule := [];
    } else {
      var one := [Move(j, CallAllow), Move(j, Continue(0))];
      var c1 := Do(Do(c, one[0]), one[1]);
      assert one[1..] == [one[1]] && one[1..][1..] == [];
      assert Does(Do(c, one[0]), [one[1]]) == c1;
      var more := LineUp(c1, j + 1, q);
      DoesThen(c, one, more);
      schedule := one + more;
    }
  }

  /** The threads j to q are counted while a late caller has reset the counter but not yet stored the
      state, run, and record their successes while the breaker is still open: the successes are lost. */
  lemma {:induction false} LateProbes(c: Client, j: nat, q: nat) returns (schedule: seq<Move>)
    requires c.s.b.status.Open? && q < |c.s.threads| && 1 <= j <= q + 1
    requires c.s.b.halfOpenRequests == j - 1 && q <= c.s.b.maxRequests
    requires forall i: nat :: j <= i <= q ==> c.s.threads[i].CountProbe? && i !in c.serving
    ensures var c' := Does(c, schedule);
            && c'.s.b == c.s.b.(halfOpenRequests := q) && c'.s.lock == c.s.lock && c'.serving == c.serving
            && |c'.s.threads| == |c.s.threads|
            && forall i :: 0 <= i < |c.s.threads| ==>
                 c'.s.threads[i] == if j <= i <= q then Resting else c.s.threads[i]
    decreases q + 1 - j
  {
    if j > q {
      schedule := [];
    } else {
      var one := [Move(j, Continue(0))] + Brief(j, CallSuccess);
      var c1 := Do(c, Move(j, Continue(0)));
      assert one[1..] == Brief(j, CallSuccess);
      BriefDoes(c1, j, CallSuccess);
      var c2 := Does(c, one);
      assert c1.serving - {j} == c.serving;
      assert c2.s.threads == c.s.threads[j := Resting];
      var more := LateProbes(c2, j + 1, q);
      DoesThen(c, one, more);
      schedule := one + more;
    }
  }

  /** A late caller of an open breaker passes the timeout test, takes the lock and resets the counter. */
  lemma BeginsEpisode(c: Client, t: nat) returns (schedule: seq<Move>)
    requires c.s.b.status.Open? && c.s.lock.None? && t < |c.s.threads| && c.s.threads[t].Resting? && t !in c.serving
    ensures var c' := Does(c, schedule);
            && c'.s.b == c.s.b.(halfOpenRequests := 0) && c'.s.lock == Some(t) && c'.serving == c.serving
            && c'.s.threads == c.s.threads[t := Storing(HalfOpen, 1, false)]
  {
    var now, k := c.s.b.lastFailure + c.s.b.timeout + 1, 5;
    schedule := Alone(t, CallAllow, now, k);
    AloneDoes(c, t, CallAllow, now, k);
    var c1 := Do(c, Move(t, CallAllow));
    GoingDoes(c1, t, now, k);
    LateOps(OwnOf(c1.s, t), t, now, k);
    assert c1.s.threads[t := Storing(HalfOpen, 1, false)] == c.s.threads[t := Storing(HalfOpen, 1, false)];
  }

  /** It stores the state and is admitted. */
  lemma EntersEpisode(c: Client, t: nat) returns (schedule: seq<Move>)
    requires t < |c.s.threads| && c.s.threads[t] == Storing(HalfOpen, 1, false)
    ensures var c' := Does(c, schedule);
            && c'.s.b == c.s.b.(successes := 0, status := HalfOpen) && c'.s.lock.None?
            && c'.serving == c.serving + {t} && c'.s.threads == c.s.threads[t := Resting]
  {
    var k := 3;
    schedule := Going(t, 0, k);
    GoingDoes(c, t, 0, k);
    LastStores(OwnOf(c.s, t), t, 0, k);
  }

  /** The threads 1 to q are about to be counted, and no other thread is in a call. */
  ghost predicate LinedUp(threads: seq<Pc>, q: nat) {
    q < |threads| && forall i :: 0 <= i < |threads| ==> threads[i] == if 1 <= i <= q then CountProbe else Resting
  }

  /** From a fresh breaker to an open one with callers left over from an earlier episode. */
  lemma LeftOver(maxFailures: int, timeout: int, threads: nat, q: nat) returns (schedule: seq<Move>)
    requires maxFailures >= 1 && threads >= q + 1
    ensures var c := Does(Begin(maxFailures, timeout, threads), schedule);
            && c.s.b.status.Open? && c.s.b.maxRequests == Quot(maxFailures, 2) && c.s.lock.None? && c.serving == {}
            && LinedUp(c.s.threads, q)
  {
    var start := Begin(maxFailures, timeout, threads);
    var failing := OpensByFailing(start, 0);
    var c1 := Does(start, failing);
    var begin := BeginsEpisode(c1, 0);
    var c2 := Does(c1, begin);
    var enter := EntersEpisode(c2, 0);
    var c3 := Does(c2, enter);
    assert c3.s.threads == start.s.threads;
    var line := LineUp(c3, 1, q);
    var c4 := Does(c3, line);
    var k := 11;
    FailsAlone(c4, 0, k);
    var fail := Alone(0, CallFailure, 0, k);
    DoesThen(start, failing, begin);
    DoesThen(start, failing + begin, enter);
    DoesThen(start, failing + begin + enter, line);
    DoesThen(start, failing + begin + enter + line, fail);
    schedule := failing + begin + enter + line + fail;
  }

  /** From there to a half-open breaker that has used up as much of its quota and counted no success, with
      one caller left. */
  lemma UsesUp(c: Client, q: nat) returns (schedule: seq<Move>)
    requires c.s.b.status.Open? && q <= c.s.b.maxRequests && c.s.lock.None? && c.serving == {}
    requires LinedUp(c.s.threads, q)
    ensures var c' := Does(c, schedule);
            && Calm(c') && c'.serving == {0} && c'.s.threads != [] && c'.s.b.successes == 0
            && c'.s.b.halfOpenRequests == q && c'.s.b.maxRequests == c.s.b.maxRequests
  {
    var begin := BeginsEpisode(c, 0);
    var c1 := Does(c, begin);
    var probe := LateProbes(c1, 1, q);
    var c2 := Does(c1, probe);
    var enter := EntersEpisode(c2, 0);
    DoesThen(c, begin, probe);
    DoesThen(c, begin + probe, enter);
    schedule := begin + probe + enter;
  }

  /** Callers left over from an earlier episode are counted between a new episode's reset of the counter
      and its store of the state, their successes are not, and with enough of them the breaker can stay
      half-open for ever, although every call returned. */
  lemma LateProbesStick(maxFailures: int, timeout: int, threads: nat)
    requires !Safe(Fresh(maxFailures, timeout), threads)
    ensures exists opening, schedule ::
              var c := Does(Begin(maxFailures, timeout, threads), opening);
              Calm(c) && Sticks(c, schedule)
  {
    var start, b := Begin(maxFailures, timeout, threads), Fresh(maxFailures, timeout);
    var q := b.maxRequests - Needed(b) + 2;
    var before := LeftOver(maxFailures, timeout, threads, q);
    var after := UsesUp(Does(start, before), q);
    DoesThen(start, before, after);
    var c := Does(start, before + after);
    NobodyUnderWay(c.s.threads, {});
    UnderWayUpdate(c.s.threads, {}, 0, Resting, c.serving);
    assert c.s.threads[0 := Resting] == c.s.threads;
    GetsStuckIff(c);
    var schedule :| Sticks(c, schedule);
  }

  /** Exactly which breakers can get stuck: those that need two successes or more to close, which is from
      maxFailures 8 on, with enough callers at once. */
  lemma CanStickIff(maxFailures: int, timeout: int, threads: nat)
    ensures CanStick(maxFailures, timeout, threads) <==>
              var quota := Quot(maxFailures, 2);
              maxFailures >= 8 && threads >= quota - Quot(quota, 2) + 3
  {
    if Safe(Fresh(maxFailures, timeout), threads) {
      forall schedule
        ensures !Stuck(Does(Begin(maxFailures, timeout, threads), schedule))
      {
        SafeNeverSticks(maxFailures, timeout, threads, schedule);
      }
    } else {
      LateProbesStick(maxFailures, timeout, threads);
      var start := Begin(maxFailures, timeout, threads);
      var opening, schedule :| var c := Does(start, opening); Calm(c) && Sticks(c, schedule);
      DoesThen(start, opening, schedule);
      assert Stuck(Does(start, opening + schedule));
    }
  }
}
