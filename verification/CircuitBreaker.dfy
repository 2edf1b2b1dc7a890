/** The circuit breaker. `Breaker` is its state as a value and `Step` one call on it; the class runs
    the source's methods and is proved to compute `Step`. AllowRequest, RecordSuccess and
    RecordFailure are atomic here, and every clock reading is a parameter. */
module CircuitBreaker {
  import opened Arith

  datatype Status = Closed | Open | HalfOpen

  datatype Breaker = Breaker(
    maxFailures: int, maxRequests: int, timeout: int,
    status: Status, failures: int, successes: int, lastFailure: int, halfOpenRequests: int)

  datatype Event = Allow(now: int) | Success | Failure(now: int) | Reset

  const MAX_TIMEOUT: int := 30 * SECOND

  function Fresh(maxFailures: int, timeout: int): Breaker {
    Breaker(maxFailures, Quot(maxFailures, 2), timeout, Closed, 0, 0, 0, 0)
  }

  function Transition(b: Breaker, status: Status): Breaker {
    match status
    case Closed => b.(status := Closed, failures := 0, successes := 0, halfOpenRequests := 0, timeout := SECOND)
    case Open => b.(status := Open, failures := 0, successes := 0)
    case HalfOpen => b.(status := HalfOpen, halfOpenRequests := 0, successes := 0)
  }

  /** The verdict of AllowRequest. */
  predicate Allowed(b: Breaker, now: int) {
    match b.status
    case Closed => true
    case Open => now - b.lastFailure > b.timeout
    case HalfOpen => b.halfOpenRequests + 1 <= b.maxRequests
  }

  function Step(b: Breaker, e: Event): Breaker {
    match e
    case Allow(now) =>
      (match b.status
       case Closed => b
       case Open => if Allowed(b, now) then Transition(b, HalfOpen) else b
       case HalfOpen => b.(halfOpenRequests := b.halfOpenRequests + 1))
    case Success =>
      (match b.status
       case Closed => b.(failures := 0)
       case Open => b
       case HalfOpen =>
         var counted := b.(successes := b.successes + 1);
         if counted.successes >= Quot(b.maxRequests, 2) then Transition(counted, Closed) else counted)
    case Failure(now) =>
      var failed := b.(lastFailure := now);
      (match b.status
       case Closed =>
         var counted := failed.(failures := b.failures + 1);
         if counted.failures >= b.maxFailures then Transition(counted, Open) else counted
       case Open => failed
       case HalfOpen => Transition(failed, Open).(timeout := Min(b.timeout * 2, MAX_TIMEOUT)))
    case Reset => Transition(b, Closed)
  }

  function Run(b: Breaker, events: seq<Event>): Breaker {
    if events == [] then b else Step(Run(b, events[..|events| - 1]), events[|events| - 1])
  }

  // ---- The failure count refines the history ----

  /** The length of the history up to the last success or the last closing, whichever is later. */
  function LastCleared(b: Breaker, events: seq<Event>): (n: nat)
    ensures n <= |events|
  {
    if events == [] then 0
    else
      var before := events[..|events| - 1];
      if events[|events| - 1].Success? || Closes(Run(b, before), events[|events| - 1]) then |events|
      else LastCleared(b, before)
  }

  /** This event closes the breaker, by a recovery or by hand. */
  predicate Closes(b: Breaker, e: Event) {
    e.Reset? || (b.status.HalfOpen? && Step(b, e).status.Closed?)
  }

  function Failures(events: seq<Event>): nat {
    if events == [] then 0
    else Failures(events[..|events| - 1]) + if events[|events| - 1].Failure? then 1 else 0
  }

  /** Failures since the last success or closing. */
  function TrailingFailures(b: Breaker, events: seq<Event>): nat {
    Failures(events[LastCleared(b, events)..])
  }

  lemma TrailingExtends(b: Breaker, events: seq<Event>)
    requires events != []
    ensures var before, e := events[..|events| - 1], events[|events| - 1];
            TrailingFailures(b, events) ==
              if e.Success? || Closes(Run(b, before), e) then 0
              else TrailingFailures(b, before) + if e.Failure? then 1 else 0
  {
    var before, n := events[..|events| - 1], LastCleared(b, events);
    if n < |events| {
      assert events[n..][..|events| - 1 - n] == before[n..];
    } else {
      assert events[n..] == [];
    }
  }

  /** While closed, `failures` is the length of the trailing run of failures, and the breaker is
      closed only as long as that run is shorter than maxFailures. */
  lemma {:induction false} FailuresAreTheTrailingRun(maxFailures: int, timeout: int, events: seq<Event>)
    ensures var b := Run(Fresh(maxFailures, timeout), events);
            && b.maxFailures == maxFailures && b.maxRequests == Quot(maxFailures, 2)
            && (b.status.Closed? ==>
                  && b.failures == TrailingFailures(Fresh(maxFailures, timeout), events)
                  && (b.failures == 0 || b.failures < maxFailures))
  {
    if events != [] {
      FailuresAreTheTrailingRun(maxFailures, timeout, events[..|events| - 1]);
      TrailingExtends(Fresh(maxFailures, timeout), events);
    }
  }

  /** A closed breaker opens exactly on the failure that brings the trailing run to maxFailures, and
      leaves the closed state in no other way. */
  lemma OpensAtMaxFailures(maxFailures: int, timeout: int, events: seq<Event>, e: Event)
    requires Run(Fresh(maxFailures, timeout), events).status.Closed?
    ensures var start, after := Fresh(maxFailures, timeout), events + [e];
            && !Run(start, after).status.HalfOpen?
            && (Run(start, after).status.Open? <==> e.Failure? && TrailingFailures(start, after) >= maxFailures)
            && (maxFailures >= 1 && Run(start, after).status.Open? ==> TrailingFailures(start, after) == maxFailures)
  {
    FailuresAreTheTrailingRun(maxFailures, timeout, events);
    Appended(Fresh(maxFailures, timeout), events, e);
    var b := Run(Fresh(maxFailures, timeout), events);
    assert !Closes(b, e) || e.Reset?;
  }

  lemma Appended(b: Breaker, events: seq<Event>, e: Event)
    ensures Run(b, events + [e]) == Step(Run(b, events), e)
    ensures TrailingFailures(b, events + [e]) ==
              if e.Success? || Closes(Run(b, events), e) then 0
              else TrailingFailures(b, events) + if e.Failure? then 1 else 0
  {
    assert (events + [e])[..|events|] == events;
    TrailingExtends(b, events + [e]);
  }

  // ---- The timeout refines the history ----

  /** Half-open episodes that ended in failure since the last closing. */
  function FailedEpisodes(b: Breaker, events: seq<Event>): nat {
    if events == [] then 0
    else
      var before, e := events[..|events| - 1], events[|events| - 1];
      if Closes(Run(b, before), e) then 0
      else FailedEpisodes(b, before) + if Run(b, before).status.HalfOpen? && e.Failure? then 1 else 0
  }

  /** The timeout given to the constructor until the first closing, one second from then on. */
  function BaseTimeout(maxFailures: int, timeout: int, events: seq<Event>): int {
    if events == [] then timeout
    else if Closes(Run(Fresh(maxFailures, timeout), events[..|events| - 1]), events[|events| - 1]) then 1_000_000_000
    else BaseTimeout(maxFailures, timeout, events[..|events| - 1])
  }

  /** That, doubled for each failed episode, but at most 30 seconds. */
  function BackedOff(maxFailures: int, timeout: int, events: seq<Event>): int {
    var k, base := FailedEpisodes(Fresh(maxFailures, timeout), events), BaseTimeout(maxFailures, timeout, events);
    if k == 0 then base else if base * Pow2(k) <= 30_000_000_000 then base * Pow2(k) else 30_000_000_000
  }

  function Pow2(k: nat): nat {
    if k == 0 then 1 else 2 * Pow2(k - 1)
  }

  /** Exponential backoff with a cap: after k failed episodes in a row the timeout is the base timeout
      doubled k times, but at most 30 seconds. */
  lemma {:induction false} TimeoutBacksOff(maxFailures: int, timeout: int, events: seq<Event>)
    ensures Run(Fresh(maxFailures, timeout), events).timeout == BackedOff(maxFailures, timeout, events)
  {
    if events != [] {
      var before := events[..|events| - 1];
      TimeoutBacksOff(maxFailures, timeout, before);
      var k, base := FailedEpisodes(Fresh(maxFailures, timeout), before), BaseTimeout(maxFailures, timeout, before);
      assert base * Pow2(k + 1) == base * Pow2(k) * 2;
    }
  }

  // ---- Half-open episodes with concurrent requests ----

  /** The breaker with the requests that are under way: `probes` are those admitted in the latest
      half-open episode, `others` all the rest. `admitted` counts the admissions of that episode. */
  datatype Traffic = Traffic(b: Breaker, admitted: nat, probes: nat, others: nat)

  datatype Action = Arrive(now: int) | Succeed(probe: bool) | Fail(probe: bool, now: int) | ManualReset

  /** A request can only finish if one of its kind is under way; other moves are stutters. */
  function Act(t: Traffic, a: Action): Traffic {
    match a
    case Arrive(now) =>
      var b := Step(t.b, Allow(now));
      if !Allowed(t.b, now) then t.(b := b)
      else (match t.b.status
            case Closed => t.(b := b, others := t.others + 1)
            case Open => Traffic(b, 1, 1, t.others + t.probes)
            case HalfOpen => t.(b := b, admitted := t.admitted + 1, probes := t.probes + 1))
    case Succeed(probe) => Finish(t, probe, Success)
    case Fail(probe, now) => Finish(t, probe, Failure(now))
    case ManualReset => t.(b := Step(t.b, Reset))
  }

  function Finish(t: Traffic, probe: bool, e: Event): Traffic {
    if probe && t.probes > 0 then t.(b := Step(t.b, e), probes := t.probes - 1)
    else if !probe && t.others > 0 then t.(b := Step(t.b, e), others := t.others - 1)
    else t
  }

  function Acts(t: Traffic, actions: seq<Action>): Traffic {
    if actions == [] then t else Act(Acts(t, actions[..|actions| - 1]), actions[|actions| - 1])
  }

  function Idle(maxFailures: int, timeout: int): Traffic {
    Traffic(Fresh(maxFailures, timeout), 0, 0, 0)
  }

  ghost predicate EpisodeInv(t: Traffic) {
    t.b.status.HalfOpen? ==>
      && t.b.halfOpenRequests >= 0 && t.b.successes >= 0
      && t.admitted == 1 + Max(0, Min(t.b.halfOpenRequests, t.b.maxRequests))
      && t.admitted <= t.probes + t.b.successes
      && (t.b.successes == 0 || t.b.successes < Quot(t.b.maxRequests, 2))
  }

  lemma {:induction false} ActsKeepEpisodeInv(maxFailures: int, timeout: int, actions: seq<Action>)
    ensures EpisodeInv(Acts(Idle(maxFailures, timeout), actions))
  {
    if actions != [] {
      ActsKeepEpisodeInv(maxFailures, timeout, actions[..|actions| - 1]);
    }
  }

  /** Safety: one half-open episode admits at most maxRequests + 1 requests, however requests arrive
      and finish, including late ones from before the episode. */
  lemma EpisodeAdmitsFew(maxFailures: int, timeout: int, actions: seq<Action>)
    ensures var t := Acts(Idle(maxFailures, timeout), actions);
            t.b.status.HalfOpen? ==> 1 <= t.admitted <= Max(0, t.b.maxRequests) + 1
  {
    ActsKeepEpisodeInv(maxFailures, timeout, actions);
  }

  /** Progress: when a half-open breaker turns requests away, a probe is still under way, and if all
      probes under way succeed the breaker closes. (If one fails it opens.) So it is never stuck. */
  lemma EpisodeIsDecided(maxFailures: int, timeout: int, actions: seq<Action>, now: int)
    requires var b := Acts(Idle(maxFailures, timeout), actions).b; b.status.HalfOpen? && !Allowed(b, now)
    ensures var t := Acts(Idle(maxFailures, timeout), actions);
            && t.probes >= 1
            && Act(t, Fail(true, now)).b.status.Open?
            && AllSucceed(t, t.probes).b.status.Closed?
  {
    ActsKeepEpisodeInv(maxFailures, timeout, actions);
    var t := Acts(Idle(maxFailures, timeout), actions);
    SuccessesClose(t, t.probes);
  }

  function AllSucceed(t: Traffic, k: nat): Traffic
    decreases k
  {
    if k == 0 then t else AllSucceed(Act(t, Succeed(true)), k - 1)
  }

  lemma {:induction false} SuccessesClose(t: Traffic, k: nat)
    requires k <= t.probes && k > 0
    requires t.b.status.Closed? ||
             (t.b.status.HalfOpen? && t.b.successes >= 0 && t.b.successes + k >= Quot(t.b.maxRequests, 2))
    ensures AllSucceed(t, k).b.status.Closed?
    decreases k
  {
    if k > 1 {
      SuccessesClose(Act(t, Succeed(true)), k - 1);
    }
  }

  // ---- Sequential calls ----

  /** One Call: the clock when it asks, whether its function succeeds, and the clock when it ends. */
  datatype Call = Call(asked: int, ok: bool, ended: int)

  function AfterCall(b: Breaker, c: Call): Breaker {
    if !Allowed(b, c.asked) then Step(b, Allow(c.asked))
    else Step(Step(b, Allow(c.asked)), if c.ok then Success else Failure(c.ended))
  }

  function AfterCalls(b: Breaker, calls: seq<Call>): Breaker {
    if calls == [] then b else AfterCall(AfterCalls(b, calls[..|calls| - 1]), calls[|calls| - 1])
  }

  /** When calls follow one another, none is ever turned away by a half-open breaker. */
  lemma {:induction false} SequentialCallsAreProbed(maxFailures: int, timeout: int, calls: seq<Call>, now: int)
    ensures var b := AfterCalls(Fresh(maxFailures, timeout), calls);
            b.status.HalfOpen? ==>
              Allowed(b, now) && b.successes == b.halfOpenRequests + 1 && 1 <= b.successes < Quot(b.maxRequests, 2)
  {
    if calls != [] {
      SequentialCallsAreProbed(maxFailures, timeout, calls[..|calls| - 1], now);
    }
  }

  // ---- The class ----

  class CircuitBreaker {
    const maxFailures: int
    const maxRequests: int
    var timeout: int
    var status: Status
    var failures: int
    var successes: int
    var lastFailureTime: int
    var halfOpenRequests: int

    ghost function Value(): Breaker
      reads this
    {
      Breaker(maxFailures, maxRequests, timeout, status, failures, successes, lastFailureTime, halfOpenRequests)
    }

    constructor (maxFailures: int, timeout: int)
      ensures Value() == Fresh(maxFailures, timeout)
    {
      this.maxFailures, maxRequests, this.timeout := maxFailures, Quot(maxFailures, 2), timeout;
      status, failures, successes, lastFailureTime, halfOpenRequests := Closed, 0, 0, 0, 0;
    }

    method TransitionTo(newStatus: Status)
      modifies this
      ensures Value() == Transition(old(Value()), newStatus)
    {
      match newStatus {
        case Closed =>
          failures := 0;
          successes := 0;
          halfOpenRequests := 0;
          timeout := SECOND;
        case Open =>
          failures := 0;
          successes := 0;
        case HalfOpen =>
          halfOpenRequests := 0;
          successes := 0;
      }
      status := newStatus;
    }

    method AllowRequest(now: int) returns (ok: bool)
      modifies this
      ensures ok == Allowed(old(Value()), now) && Value() == Step(old(Value()), Allow(now))
    {
      match status {
        case Closed => return true;
        case Open =>
          if now - lastFailureTime > timeout {
            TransitionTo(HalfOpen);
            return true;
          }
          return false;
        case HalfOpen =>
          halfOpenRequests := halfOpenRequests + 1;
          return halfOpenRequests <= maxRequests;
      }
    }

    method RecordSuccess()
      modifies this
      ensures Value() == Step(old(Value()), Success)
    {
      match status {
        case HalfOpen =>
          successes := successes + 1;
          if successes >= Quot(maxRequests, 2) {
            TransitionTo(Closed);
          }
        case Closed => failures := 0;
        case Open =>
      }
    }

    method RecordFailure(now: int)
      modifies this
      ensures Value() == Step(old(Value()), Failure(now))
    {
      lastFailureTime := now;
      match status {
        case Closed =>
          failures := failures + 1;
          if failures >= maxFailures {
            TransitionTo(Open);
          }
        case HalfOpen =>
          TransitionTo(Open);
          timeout := timeout * 2;
          if timeout > MAX_TIMEOUT {
            timeout := MAX_TIMEOUT;
          }
        case Open =>
      }
    }

    method Reset()
      modifies this
      ensures Value() == Step(old(Value()), Event.Reset)
    {
      TransitionTo(Closed);
    }

    /** Call with a function whose outcome is given; false means the circuit was open. */
    method Execute(c: Call) returns (admitted: bool)
      modifies this
      ensures admitted == Allowed(old(Value()), c.asked) && Value() == AfterCall(old(Value()), c)
    {
      admitted := AllowRequest(c.asked);
      if !admitted {
        return;
      }
      if c.ok {
        RecordSuccess();
      } else {
        RecordFailure(c.ended);
      }
    }
  }
}
