/** The lock-free token bucket under arbitrary interleaving.

    Any number of threads run TryConsume, Return and refill on one shared bucket. One step of the
    machine is one atomic operation of one thread: a load, a compare-and-swap or a clock reading. A
    schedule is any sequence of moves, so `Run` ranges over every interleaving, and a clock reading
    may be any integer, so nothing depends on the clock being monotone. */
module BucketMachine {
  import opened Arith
  import TokenBucket

  /** maxTokens and refillRate, fixed for the lifetime of the bucket. */
  datatype Limits = Limits(maxTokens: nat, refillRate: nat)

  /** Where a thread goes when its refill returns. */
  datatype Resume = RetryConsume(n: nat) | Finish

  /** The next atomic operation of a thread, with the locals it still needs. */
  datatype Pc =
    | Idle
    | LoadForConsume(n: nat)
    | ReadClock(k: Resume)
    | LoadLast(now: int, k: Resume)
    | CasLast(now: int, last: int, k: Resume)
    | LoadForCredit(add: int, k: Resume)
    | CasCredit(add: int, current: int, k: Resume)
    | Reload(n: nat)
    | CasConsume(n: nat, current: int)
    | LoadForReturn(n: nat)
    | CasReturn(n: nat, current: int)

  /** What a successful compare-and-swap or a refusal did, in the order it happened. */
  datatype Event =
    | Consumed(n: nat)
    | Refused(n: nat)
    | Returned(n: nat)
    | Advanced(from: int, to: int)
    | Credited(add: int)

  datatype State = State(tokens: int, lastRefill: int, threads: seq<Pc>, log: seq<Event>)

  datatype Action = CallTryConsume(n: nat) | CallReturn(n: nat) | CallRefill | Continue(now: int)

  datatype Move = Move(thread: nat, action: Action)

  function After(k: Resume): Pc {
    match k
    case RetryConsume(n) => Reload(n)
    case Finish => Idle
  }

  function Goto(s: State, t: nat, pc: Pc): State
    requires t < |s.threads|
  {
    s.(threads := s.threads[t := pc])
  }

  /** Credit of one refill: the time since the last refill, at the refill rate. */
  function Credit(c: Limits, from: int, to: int): int {
    Quot((to - from) * c.refillRate, SECOND)
  }

  /** One move. A call starts only on an idle thread; any other move that does not apply is a stutter. */
  function Step(c: Limits, s: State, m: Move): State {
    if m.thread >= |s.threads| then s
    else if s.threads[m.thread].Idle? then Begin(s, m)
    else if m.action.Continue? then Resumed(c, s, m.thread, m.action.now)
    else s
  }

  function Begin(s: State, m: Move): State
    requires m.thread < |s.threads|
  {
    match m.action
    case CallTryConsume(n) => Goto(s, m.thread, LoadForConsume(n))
    case CallReturn(n) => Goto(s, m.thread, LoadForReturn(n))
    case CallRefill => Goto(s, m.thread, ReadClock(Finish))
    case Continue(_) => s
  }

  function Resumed(c: Limits, s: State, t: nat, now: int): State
    requires t < |s.threads|
  {
    match s.threads[t]
    case Idle => s
    case LoadForConsume(n) =>
      Goto(s, t, if s.tokens < n then ReadClock(RetryConsume(n)) else CasConsume(n, s.tokens))
    case ReadClock(k) => Goto(s, t, LoadLast(now, k))
    case LoadLast(at, k) =>
      Goto(s, t, if at - s.lastRefill <= 0 then After(k) else CasLast(at, s.lastRefill, k))
    case CasLast(at, last, k) =>
      if s.lastRefill != last then Goto(s, t, After(k))
      else
        var add := Credit(c, last, at);
        Goto(s.(lastRefill := at, log := s.log + [Advanced(last, at)]), t,
             if add <= 0 then After(k) else LoadForCredit(add, k))
    case LoadForCredit(add, k) => Goto(s, t, CasCredit(add, s.tokens, k))
    case CasCredit(add, current, k) =>
      if s.tokens != current then Goto(s, t, LoadForCredit(add, k))
      else Goto(s.(tokens := Min(current + add, c.maxTokens), log := s.log + [Credited(add)]), t, After(k))
    case Reload(n) =>
      if s.tokens < n then Goto(s.(log := s.log + [Refused(n)]), t, Idle)
      else Goto(s, t, CasConsume(n, s.tokens))
    case CasConsume(n, current) =>
      if s.tokens != current then Goto(s, t, LoadForConsume(n))
      else Goto(s.(tokens := current - n, log := s.log + [Consumed(n)]), t, Idle)
    case LoadForReturn(n) => Goto(s, t, CasReturn(n, s.tokens))
    case CasReturn(n, current) =>
      if s.tokens != current then Goto(s, t, LoadForReturn(n))
      else Goto(s.(tokens := Min(current + n, c.maxTokens), log := s.log + [Returned(n)]), t, Idle)
  }

  function Run(c: Limits, s: State, schedule: seq<Move>): State {
    if schedule == [] then s
    else Step(c, Run(c, s, schedule[..|schedule| - 1]), schedule[|schedule| - 1])
  }

  ghost predicate Initial(c: Limits, s: State) {
    && 0 <= s.tokens <= c.maxTokens
    && s.log == []
    && forall t :: 0 <= t < |s.threads| ==> s.threads[t].Idle?
  }

  // ---- What the log adds up to ----

  /** Tokens taken by successful TryConsume calls, less tokens handed back by Return. */
  function Net(log: seq<Event>): int {
    if log == [] then 0 else Net(log[..|log| - 1]) + Taken(log[|log| - 1])
  }

  function Taken(e: Event): int {
    match e
    case Consumed(n) => n
    case Returned(n) => 0 - n
    case _ => 0
  }

  /** Credit promised by all advances of lastRefill. */
  function Granted(c: Limits, log: seq<Event>): int {
    if log == [] then 0 else Granted(c, log[..|log| - 1]) + Grant(c, log[|log| - 1])
  }

  function Grant(c: Limits, e: Event): int {
    if e.Advanced? then Credit(c, e.from, e.to) else 0
  }

  /** The number of refills that advanced lastRefill. */
  function Refills(log: seq<Event>): nat {
    if log == [] then 0
    else Refills(log[..|log| - 1]) + if log[|log| - 1].Advanced? then 1 else 0
  }

  /** Credit that a thread has claimed by advancing lastRefill but not yet added to tokens. */
  function Claimed(pc: Pc): int {
    match pc
    case LoadForCredit(add, _) => add
    case CasCredit(add, _, _) => add
    case _ => 0
  }

  function InFlight(threads: seq<Pc>): int {
    if threads == [] then 0
    else InFlight(threads[..|threads| - 1]) + Claimed(threads[|threads| - 1])
  }

  /** The advances in the log tile the time from `start` to `end`: each begins where the one before
      ended and has positive length, so no instant is credited twice and none is skipped. */
  ghost predicate Tiles(log: seq<Event>, start: int, end: int) {
    if log == [] then start == end
    else
      match log[|log| - 1]
      case Advanced(from, to) => to == end && from < to && Tiles(log[..|log| - 1], start, from)
      case _ => Tiles(log[..|log| - 1], start, end)
  }

  /** The same log read as a run of an atomic, sequential bucket: every consumption found enough
      tokens, every refusal too few, and the bucket ends with `tokens`. */
  ghost predicate Sequential(c: Limits, log: seq<Event>, start: int, tokens: int)
    decreases log
  {
    if log == [] then tokens == start
    else
      var before := log[..|log| - 1];
      match log[|log| - 1]
      case Consumed(n) => tokens >= 0 && Sequential(c, before, start, tokens + n)
      case Refused(n) => tokens < n && Sequential(c, before, start, tokens)
      case Returned(n) =>
        exists was :: Sequential(c, before, start, was) && tokens == Min(was + n, c.maxTokens)
      case Credited(add) =>
        add > 0 && exists was :: Sequential(c, before, start, was) && tokens == Min(was + add, c.maxTokens)
      case Advanced(_, _) => Sequential(c, before, start, tokens)
  }

  // ---- The invariant ----

  /** What a thread's locals guarantee about its next operation, whatever other threads do. */
  ghost predicate Sound(pc: Pc) {
    match pc
    case CasLast(now, last, _) => last < now
    case LoadForCredit(add, _) => add > 0
    case CasCredit(add, _, _) => add > 0
    case CasConsume(n, current) => n <= current
    case _ => true
  }

  ghost predicate Inv(c: Limits, s0: State, s: State) {
    && |s.threads| == |s0.threads|
    && (forall t :: 0 <= t < |s.threads| ==> Sound(s.threads[t]))
    && 0 <= s.tokens <= c.maxTokens
    && Tiles(s.log, s0.lastRefill, s.lastRefill)
    && Sequential(c, s.log, s0.tokens, s.tokens)
    && Net(s.log) + s.tokens + InFlight(s.threads) <= s0.tokens + Granted(c, s.log)
  }

  lemma {:induction false} InFlightUpdate(threads: seq<Pc>, t: nat, pc: Pc)
    requires t < |threads|
    ensures InFlight(threads[t := pc]) == InFlight(threads) - Claimed(threads[t]) + Claimed(pc)
  {
    var last := |threads| - 1;
    if t == last {
      assert threads[t := pc][..last] == threads[..last];
    } else {
      assert threads[t := pc][..last] == threads[..last][t := pc];
      InFlightUpdate(threads[..last], t, pc);
    }
  }

  /** One more event on the log, given what happened to the bucket when it was logged. */
  lemma LogExtends(c: Limits, s0: State, s: State, e: Event, tokens: int, lastRefill: int)
    requires Tiles(s.log, s0.lastRefill, s.lastRefill) && Sequential(c, s.log, s0.tokens, s.tokens)
    requires match e
             case Consumed(n) => tokens == s.tokens - n && tokens >= 0
             case Refused(n) => tokens == s.tokens && tokens < n
             case Returned(n) => tokens == Min(s.tokens + n, c.maxTokens)
             case Credited(add) => add > 0 && tokens == Min(s.tokens + add, c.maxTokens)
             case Advanced(from, to) => tokens == s.tokens && from == s.lastRefill < to == lastRefill
    requires !e.Advanced? ==> lastRefill == s.lastRefill
    ensures var log := s.log + [e];
            && Tiles(log, s0.lastRefill, lastRefill)
            && Sequential(c, log, s0.tokens, tokens)
            && Net(log) == Net(s.log) + Taken(e)
            && Granted(c, log) == Granted(c, s.log) + Grant(c, e)
  {
    assert (s.log + [e])[..|s.log + [e]| - 1] == s.log;
  }

  lemma StepKeepsInv(c: Limits, s0: State, s: State, m: Move)
    requires Inv(c, s0, s)
    ensures Inv(c, s0, Step(c, s, m))
  {
    if m.thread < |s.threads| {
      var s' := Step(c, s, m);
      StepChanges(c, s, m);
      InFlightUpdate(s.threads, m.thread, s'.threads[m.thread]);
      if s'.log != s.log {
        LoggedStepKeepsInv(c, s0, s, s', s'.log[|s.log|], m.thread);
      }
    }
  }

  /** The same for a step that logs an event, given what it did. */
  lemma LoggedStepKeepsInv(c: Limits, s0: State, s: State, s': State, e: Event, t: nat)
    requires Inv(c, s0, s) && Fits(c, s') && t < |s.threads| == |s'.threads| && s'.log == s.log + [e]
    requires e.Advanced? || s'.lastRefill == s.lastRefill
    requires var claimed := Claimed(s'.threads[t]) - Claimed(s.threads[t]);
             && InFlight(s'.threads) == InFlight(s.threads) + claimed
             && match e
                case Consumed(n) => s'.tokens == s.tokens - n && claimed == 0
                case Refused(n) => s'.tokens == s.tokens < n && claimed == 0
                case Returned(n) => s'.tokens == Min(s.tokens + n, c.maxTokens) && claimed == 0
                case Credited(add) =>
                  add > 0 && s'.tokens == Min(s.tokens + add, c.maxTokens) && claimed == 0 - add
                case Advanced(from, to) =>
                  && s'.tokens == s.tokens && from == s.lastRefill < to == s'.lastRefill
                  && claimed == Max(0, Credit(c, from, to))
    ensures Inv(c, s0, s')
  {
    LogExtends(c, s0, s, e, s'.tokens, s'.lastRefill);
    if e.Advanced? {
      assert (e.to - e.from) * c.refillRate >= 0;
    }
  }

  ghost predicate Fits(c: Limits, s: State) {
    && 0 <= s.tokens <= c.maxTokens
    && forall t :: 0 <= t < |s.threads| ==> Sound(s.threads[t])
  }

  /** What one move of a thread may do to the bucket, the log and its own in-flight credit. */
  lemma StepChanges(c: Limits, s: State, m: Move)
    requires Fits(c, s) && m.thread < |s.threads|
    ensures var s' := Step(c, s, m);
            && |s'.threads| == |s.threads|
            && var was, pc := s.threads[m.thread], s'.threads[m.thread];
            && s'.threads == s.threads[m.thread := pc]
            && Fits(c, s')
            && if s'.log == s.log
               then s'.tokens == s.tokens && s'.lastRefill == s.lastRefill && Claimed(pc) == Claimed(was)
               else
                 && |s'.log| == |s.log| + 1
                 && var e := s'.log[|s.log|];
                 && s'.log == s.log + [e]
                 && (e.Advanced? || s'.lastRefill == s.lastRefill)
                 && match e
                    case Consumed(n) => s'.tokens == s.tokens - n && Claimed(pc) == Claimed(was) == 0
                    case Refused(n) => s'.tokens == s.tokens < n && Claimed(pc) == Claimed(was) == 0
                    case Returned(n) => s'.tokens == Min(s.tokens + n, c.maxTokens) && Claimed(pc) == Claimed(was) == 0
                    case Credited(add) =>
                      && add > 0 && s'.tokens == Min(s.tokens + add, c.maxTokens)
                      && Claimed(was) == add && Claimed(pc) == 0
                    case Advanced(from, to) =>
                      && s'.tokens == s.tokens && from == s.lastRefill < to == s'.lastRefill
                      && Claimed(was) == 0 && Claimed(pc) == Max(0, Credit(c, from, to))
  {
    var s' := Step(c, s, m);
    assert Sound(s.threads[m.thread]);
    assert Sound(s'.threads[m.thread]);
  }

  lemma {:induction false} InFlightIdle(threads: seq<Pc>)
    requires forall t :: 0 <= t < |threads| ==> threads[t].Idle?
    ensures InFlight(threads) == 0
  {
    if threads != [] {
      InFlightIdle(threads[..|threads| - 1]);
    }
  }

  lemma {:induction false} RunKeepsInv(c: Limits, s0: State, schedule: seq<Move>)
    requires Initial(c, s0)
    ensures Inv(c, s0, Run(c, s0, schedule))
  {
    if schedule == [] {
      InFlightIdle(s0.threads);
    } else {
      var before := schedule[..|schedule| - 1];
      RunKeepsInv(c, s0, before);
      StepKeepsInv(c, s0, Run(c, s0, before), schedule[|schedule| - 1]);
    }
  }

  // ---- Sums of floors ----

  /** Rounding each refill down separately loses less than one token per refill and never gains. */
  lemma {:induction false} GrantedBounds(c: Limits, log: seq<Event>, start: int, end: int)
    requires Tiles(log, start, end)
    ensures start <= end
    ensures Granted(c, log) * SECOND <= (end - start) * c.refillRate
    ensures (end - start) * c.refillRate - Granted(c, log) * SECOND <= Refills(log) * (SECOND - 1)
  {
    if log != [] {
      var before := log[..|log| - 1];
      match log[|log| - 1]
      case Advanced(from, to) =>
        GrantedBounds(c, before, start, from);
        assert (end - start) * c.refillRate == (from - start) * c.refillRate + (to - from) * c.refillRate;
        assert (to - from) * c.refillRate >= 0;
      case _ => GrantedBounds(c, before, start, end);
    }
  }

  // ---- Main results ----

  /** In every interleaving the bucket never goes below zero nor above its capacity. */
  lemma TokensStayInRange(c: Limits, s0: State, schedule: seq<Move>)
    requires Initial(c, s0)
    ensures 0 <= Run(c, s0, schedule).tokens <= c.maxTokens
  {
    RunKeepsInv(c, s0, schedule);
  }

  /** No stretch of time is credited twice: the successful swaps of lastRefill tile elapsed time. */
  lemma TimeIsCreditedOnce(c: Limits, s0: State, schedule: seq<Move>)
    requires Initial(c, s0)
    ensures Tiles(Run(c, s0, schedule).log, s0.lastRefill, Run(c, s0, schedule).lastRefill)
  {
    RunKeepsInv(c, s0, schedule);
  }

  /** The concurrent bucket is linearizable: its log, in the order of the swaps, is a legal run of an
      atomic bucket that ends with the same number of tokens. */
  lemma Linearizable(c: Limits, s0: State, schedule: seq<Move>)
    requires Initial(c, s0)
    ensures var s := Run(c, s0, schedule); Sequential(c, s.log, s0.tokens, s.tokens)
  {
    RunKeepsInv(c, s0, schedule);
  }

  /** The rate bound: what was taken, what is left and what is being credited never exceed the
      initial tokens plus the refill of the elapsed time, rounded down once. */
  lemma RateBound(c: Limits, s0: State, schedule: seq<Move>)
    requires Initial(c, s0)
    ensures var s := Run(c, s0, schedule);
            Net(s.log) + s.tokens + InFlight(s.threads)
              <= s0.tokens + (s.lastRefill - s0.lastRefill) * c.refillRate / SECOND
  {
    RunKeepsInv(c, s0, schedule);
    var s := Run(c, s0, schedule);
    GrantedBounds(c, s.log, s0.lastRefill, s.lastRefill);
  }

  /** The other side: k refills together fall short of the exact credit by less than k tokens. */
  lemma RefillShortfall(c: Limits, s0: State, schedule: seq<Move>)
    requires Initial(c, s0)
    ensures var s := Run(c, s0, schedule);
            var exact := (s.lastRefill - s0.lastRefill) * c.refillRate;
            && Granted(c, s.log) * SECOND <= exact
            && (Refills(s.log) >= 1 ==> exact < (Granted(c, s.log) + Refills(s.log)) * SECOND)
  {
    RunKeepsInv(c, s0, schedule);
    var s := Run(c, s0, schedule);
    GrantedBounds(c, s.log, s0.lastRefill, s.lastRefill);
  }

  // ---- One call of one thread ----

  /** The call a thread is executing; a refill inside TryConsume belongs to that TryConsume. */
  datatype Call = NoCall | Consuming(n: nat) | Returning(n: nat) | Refilling

  function CallOf(pc: Pc): Call {
    match pc
    case Idle => NoCall
    case LoadForConsume(n) => Consuming(n)
    case Reload(n) => Consuming(n)
    case CasConsume(n, _) => Consuming(n)
    case LoadForReturn(n) => Returning(n)
    case CasReturn(n, _) => Returning(n)
    case ReadClock(k) => CallOfResume(k)
    case LoadLast(_, k) => CallOfResume(k)
    case CasLast(_, _, k) => CallOfResume(k)
    case LoadForCredit(_, k) => CallOfResume(k)
    case CasCredit(_, _, k) => CallOfResume(k)
  }

  function CallOfResume(k: Resume): Call {
    if k.RetryConsume? then Consuming(k.n) else Refilling
  }

  /** A call takes effect exactly once, in the step in which it returns: TryConsume(n) logs one
      Consumed(n) or one Refused(n), Return(n) one Returned(n), and until then none of these. */
  lemma CallsTakeEffectOnce(c: Limits, s: State, t: nat, now: int)
    requires t < |s.threads| && !s.threads[t].Idle?
    ensures var s', call := Step(c, s, Move(t, Continue(now))), CallOf(s.threads[t]);
            var ended := CallOf(s'.threads[t]) == NoCall;
            && (ended || CallOf(s'.threads[t]) == call)
            && (call.Consuming? && ended ==>
                  s'.log in {s.log + [Consumed(call.n)], s.log + [Refused(call.n)]})
            && (call.Returning? && ended ==> s'.log == s.log + [Returned(call.n)])
            && (!ended || call.Refilling? ==>
                  s'.log == s.log || s'.log[|s.log|].Advanced? || s'.log[|s.log|].Credited?)
  {
  }

  /** A lost race costs nothing: a TryConsume, a Return or a credit starts over from its load, and a refill
      whose swap of lastRefill fails leaves the credit to the winner. */
  lemma LostRaceRetries(c: Limits, s: State, t: nat, now: int)
    requires t < |s.threads|
    requires match s.threads[t]
             case CasConsume(_, current) => s.tokens != current
             case CasReturn(_, current) => s.tokens != current
             case CasCredit(_, current, _) => s.tokens != current
             case CasLast(_, last, _) => s.lastRefill != last
             case _ => false
    ensures var s' := Step(c, s, Move(t, Continue(now)));
            && s' == s.(threads := s'.threads) && s'.threads == s.threads[t := s'.threads[t]]
            && s'.threads[t] == match s.threads[t]
                                case CasConsume(n, _) => LoadForConsume(n)
                                case CasReturn(n, _) => LoadForReturn(n)
                                case CasCredit(add, _, k) => LoadForCredit(add, k)
                                case CasLast(_, _, k) => if k.RetryConsume? then Reload(k.n) else Idle
  {
  }

  /** Thread t alone making k moves, all its clock readings being `now`. */
  function Alone(c: Limits, s: State, t: nat, now: int, k: nat): State
    decreases k
  {
    if k == 0 then s else Alone(c, Step(c, s, Move(t, Continue(now))), t, now, k - 1)
  }

  lemma {:induction false} AloneIsARun(c: Limits, s0: State, prefix: seq<Move>, t: nat, now: int, k: nat)
    ensures Alone(c, Run(c, s0, prefix), t, now, k)
            == Run(c, s0, prefix + seq(k, _ => Move(t, Continue(now))))
    decreases k
  {
    var go := Move(t, Continue(now));
    if k == 0 {
      assert prefix + seq(0, _ => go) == prefix;
    } else {
      assert (prefix + [go])[..|prefix|] == prefix;
      AloneIsARun(c, s0, prefix + [go], t, now, k - 1);
      assert prefix + [go] + seq(k - 1, _ => go) == prefix + seq(k, _ => go);
    }
  }

  /** A TryConsume that runs without interference does what the one-thread bucket says: within nine
      moves it ends with the tokens, the lastRefill and the verdict of `TokenBucket.Consumed`. */
  lemma SoloConsume(c: Limits, s: State, t: nat, n: nat, now: int)
    requires t < |s.threads| && s.threads[t].Idle? && 0 <= s.tokens <= c.maxTokens
    ensures var s' := Alone(c, Step(c, s, Move(t, CallTryConsume(n))), t, now, 9);
            var (b, ok) := TokenBucket.Consumed(
                             TokenBucket.Bucket(s.tokens, c.maxTokens, c.refillRate, s.lastRefill), n, now);
            && s'.tokens == b.tokens && s'.lastRefill == b.lastRefill && s'.threads == s.threads
            && s'.log != [] && s'.log[|s'.log| - 1] == if ok then Consumed(n) else Refused(n)
  {
    var go := Move(t, Continue(now));
    var s1 := Step(c, s, Move(t, CallTryConsume(n)));
    var s2 := Step(c, s1, go);
    if s.tokens < n {
      var s3 := Step(c, s2, go);
      var s4 := Step(c, s3, go);
      assert Alone(c, s1, t, now, 9) == Alone(c, s2, t, now, 8) == Alone(c, s3, t, now, 7) == Alone(c, s4, t, now, 6);
      if now > s.lastRefill {
        var s5 := Step(c, s4, go);
        SoloTail(c, s5, t, n, now);
        assert Alone(c, s4, t, now, 6) == Alone(c, s5, t, now, 5);
      } else {
        SoloReload(c, s4, t, n, now, 6);
      }
    } else {
      var s3 := Step(c, s2, go);
      SoloIdle(c, s3, t, now, 7);
      assert Alone(c, s1, t, now, 9) == Alone(c, s3, t, now, 7);
      assert s3.threads == s.threads;
    }
  }

  /** What a bucket of the machine holds if it is refilled now: whole tokens earned since the last refill
      are added, up to the capacity. */
  ghost function HoldsAt(c: Limits, s: State, now: int): int {
    var earned := if now <= s.lastRefill then 0 else (now - s.lastRefill) * c.refillRate / 1_000_000_000;
    if s.tokens + earned <= c.maxTokens then s.tokens + earned else c.maxTokens
  }

  /** An undisturbed TryConsume is refused exactly if the bucket holds too few tokens and would also if
      refilled now; otherwise it takes n, refilling the bucket only if it is short. */
  lemma SoloVerdict(c: Limits, s: State, t: nat, n: nat, now: int)
    requires t < |s.threads| && s.threads[t].Idle? && 0 <= s.tokens <= c.maxTokens
    ensures var s' := Alone(c, Step(c, s, Move(t, CallTryConsume(n))), t, now, 9);
            var refused := s.tokens < n && HoldsAt(c, s, now) < n;
            && s'.log != [] && s'.log[|s'.log| - 1] == (if refused then Refused(n) else Consumed(n))
            && s'.tokens == (if s.tokens >= n then s.tokens - n
                             else if refused then HoldsAt(c, s, now) else HoldsAt(c, s, now) - n)
            && s'.lastRefill == (if s.tokens < n && now > s.lastRefill then now else s.lastRefill)
            && s'.threads == s.threads
  {
    SoloConsume(c, s, t, n, now);
    AtomicVerdict(c, s, n, now);
  }

  lemma AtomicVerdict(c: Limits, s: State, n: nat, now: int)
    requires 0 <= s.tokens <= c.maxTokens
    ensures var (b, ok) := TokenBucket.Consumed(
                             TokenBucket.Bucket(s.tokens, c.maxTokens, c.refillRate, s.lastRefill), n, now);
            var refused := s.tokens < n && HoldsAt(c, s, now) < n;
            && ok == !refused && b.lastRefill == (if s.tokens < n && now > s.lastRefill then now else s.lastRefill)
            && b.tokens == (if s.tokens >= n then s.tokens - n
                            else if refused then HoldsAt(c, s, now) else HoldsAt(c, s, now) - n)
  {
    TokenBucket.ConsumeTakes(TokenBucket.Bucket(s.tokens, c.maxTokens, c.refillRate, s.lastRefill), n, now);
    assert now > s.lastRefill ==> (now - s.lastRefill) * c.refillRate >= 0;
  }

  /** An undisturbed refill, started by the refill loop, credits everything earned since the last one. */
  lemma SoloRefill(c: Limits, s: State, t: nat, now: int)
    requires t < |s.threads| && s.threads[t].Idle? && 0 <= s.tokens <= c.maxTokens
    ensures var s' := Alone(c, Step(c, s, Move(t, CallRefill)), t, now, 5);
            && s'.tokens == HoldsAt(c, s, now) && s'.threads == s.threads
            && s'.lastRefill == if now > s.lastRefill then now else s.lastRefill
  {
    var go := Move(t, Continue(now));
    var s1 := Step(c, s, Move(t, CallRefill));
    var s2 := Step(c, s1, go);
    var s3 := Step(c, s2, go);
    assert Alone(c, s1, t, now, 5) == Alone(c, s2, t, now, 4) == Alone(c, s3, t, now, 3);
    if now <= s.lastRefill {
      SoloIdle(c, s3, t, now, 3);
    } else {
      var s4 := Step(c, s3, go);
      assert Alone(c, s3, t, now, 3) == Alone(c, s4, t, now, 2);
      assert (now - s.lastRefill) * c.refillRate >= 0;
      if s4.threads[t].Idle? {
        SoloIdle(c, s4, t, now, 2);
      } else {
        var s5 := Step(c, s4, go);
        var s6 := Step(c, s5, go);
        assert Alone(c, s4, t, now, 2) == Alone(c, s5, t, now, 1) == Alone(c, s6, t, now, 0);
      }
    }
  }

  /** An undisturbed Return adds n tokens, up to the capacity. */
  lemma SoloReturn(c: Limits, s: State, t: nat, n: nat, now: int)
    requires t < |s.threads| && s.threads[t].Idle?
    ensures var s' := Alone(c, Step(c, s, Move(t, CallReturn(n))), t, now, 2);
            && s'.tokens == (if s.tokens + n <= c.maxTokens then s.tokens + n else c.maxTokens)
            && s'.lastRefill == s.lastRefill && s'.threads == s.threads
  {
    var s1 := Step(c, s, Move(t, CallReturn(n)));
    var s2 := Step(c, s1, Move(t, Continue(now)));
    var s3 := Step(c, s2, Move(t, Continue(now)));
    assert Alone(c, s1, t, now, 2) == Alone(c, s2, t, now, 1) == Alone(c, s3, t, now, 0);
    assert s3.threads == s.threads;
  }

  lemma {:induction false} SoloIdle(c: Limits, s: State, t: nat, now: int, k: nat)
    requires t < |s.threads| && s.threads[t].Idle?
    ensures Alone(c, s, t, now, k) == s
    decreases k
  {
    if k > 0 {
      SoloIdle(c, s, t, now, k - 1);
    }
  }

  lemma SoloReload(c: Limits, s: State, t: nat, n: nat, now: int, k: nat)
    requires t < |s.threads| && s.threads[t] == Reload(n) && k >= 2
    ensures var s', ok := Alone(c, s, t, now, k), n <= s.tokens;
            s' == Goto(s.(tokens := if ok then s.tokens - n else s.tokens,
                          log := s.log + [if ok then Consumed(n) else Refused(n)]), t, Idle)
  {
    var s1 := Step(c, s, Move(t, Continue(now)));
    var s2 := Step(c, s1, Move(t, Continue(now)));
    SoloIdle(c, s2, t, now, k - 2);
    assert s1.threads[t := Idle] == s.threads[t := Idle];
  }

  lemma SoloTail(c: Limits, s: State, t: nat, n: nat, now: int)
    requires t < |s.threads|
    requires s.threads[t] == Reload(n) || (s.threads[t].LoadForCredit? && s.threads[t].k == RetryConsume(n))
    ensures var tokens := s.tokens;
            var full := if s.threads[t].Reload? then tokens else Min(tokens + s.threads[t].add, c.maxTokens);
            var s', ok := Alone(c, s, t, now, 5), n <= full;
            && s'.tokens == (if ok then full - n else full) && s'.lastRefill == s.lastRefill
            && s'.threads == s.threads[t := Idle]
            && s'.log != [] && s'.log[|s'.log| - 1] == if ok then Consumed(n) else Refused(n)
  {
    if s.threads[t].Reload? {
      SoloReload(c, s, t, n, now, 5);
    } else {
      var go := Move(t, Continue(now));
      var s2 := Step(c, Step(c, s, go), go);
      assert Alone(c, s, t, now, 5) == Alone(c, s2, t, now, 3);
      SoloReload(c, s2, t, n, now, 3);
      assert s2.threads[t := Idle] == s.threads[t := Idle];
    }
  }
}
