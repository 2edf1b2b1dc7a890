/** What the breaker does next, read off the history of its calls alone: the clocks of failures, the number
    of requests and successes since an episode began, and the configuration in plain numbers. */
module BreakerHistory {
  import opened CircuitBreaker
  import opened Collections

  /** The clock of the last failure recorded. */
  function LastFailureAt(events: seq<Event>): Option<int> {
    if events == [] then None
    else if events[|events| - 1].Failure? then Some(events[|events| - 1].now)
    else LastFailureAt(events[..|events| - 1])
  }

  function Asks(events: seq<Event>): nat {
    if events == [] then 0
    else Asks(events[..|events| - 1]) + if events[|events| - 1].Allow? then 1 else 0
  }

  function Successes(events: seq<Event>): nat {
    if events == [] then 0
    else Successes(events[..|events| - 1]) + if events[|events| - 1].Success? then 1 else 0
  }

  /** Half, truncated toward zero. */
  function Half(n: int): int {
    if n >= 0 then n / 2 else -((-n) / 2)
  }

  /** The history up to the request that made the breaker half-open, that request included. */
  function EpisodeStart(b: Breaker, events: seq<Event>): (n: nat)
    ensures n <= |events|
  {
    if events == [] then 0
    else
      var before := events[..|events| - 1];
      if Run(b, events).status.HalfOpen? && !Run(b, before).status.HalfOpen? then |events|
      else EpisodeStart(b, before)
  }

  /** The calls since then. */
  function Episode(b: Breaker, events: seq<Event>): seq<Event> {
    events[EpisodeStart(b, events)..]
  }

  lemma EpisodeExtends(b: Breaker, events: seq<Event>)
    requires events != [] && Run(b, events).status.HalfOpen?
    ensures var before, e := events[..|events| - 1], events[|events| - 1];
            Episode(b, events) == if Run(b, before).status.HalfOpen? then Episode(b, before) + [e] else []
  {
    var before, n := events[..|events| - 1], EpisodeStart(b, events);
    if Run(b, before).status.HalfOpen? {
      assert events[n..] == before[n..] + [events[|events| - 1]];
    }
  }

  lemma CountsExtend(events: seq<Event>, e: Event)
    ensures Asks(events + [e]) == Asks(events) + if e.Allow? then 1 else 0
    ensures Successes(events + [e]) == Successes(events) + if e.Success? then 1 else 0
  {
    assert (events + [e])[..|events|] == events;
  }

  /** An open breaker has seen a failure, and remembers the clock of the last one. */
  lemma {:induction false} FailureIsRemembered(maxFailures: int, timeout: int, events: seq<Event>)
    ensures var b, last := Run(Fresh(maxFailures, timeout), events), LastFailureAt(events);
            && (last.Some? ==> b.lastFailure == last.value)
            && (b.status.Open? || b.status.HalfOpen? ==> last.Some?)
  {
    if events != [] {
      FailureIsRemembered(maxFailures, timeout, events[..|events| - 1]);
    }
  }

  /** A half-open breaker has counted the requests and the successes since its episode began. */
  lemma {:induction false} EpisodeIsCounted(maxFailures: int, timeout: int, events: seq<Event>)
    ensures var start := Fresh(maxFailures, timeout);
            var b := Run(start, events);
            && b.maxFailures == maxFailures && b.maxRequests == Half(maxFailures)
            && (b.status.HalfOpen? ==>
                  && b.halfOpenRequests == Asks(Episode(start, events))
                  && b.successes == Successes(Episode(start, events)))
  {
    if events != [] {
      var before, start := events[..|events| - 1], Fresh(maxFailures, timeout);
      EpisodeIsCounted(maxFailures, timeout, before);
      if Run(start, events).status.HalfOpen? {
        EpisodeExtends(start, events);
        CountsExtend(Episode(start, before), events[|events| - 1]);
      }
    }
  }

  /** Whether a request is admitted, after every history: always while closed; while open exactly when more
      than the backed-off timeout has passed since the clock of the last failure; and while half-open
      exactly for the first maxFailures / 2 requests after the one that began the episode. */
  lemma AdmissionFollowsHistory(maxFailures: int, timeout: int, events: seq<Event>, now: int)
    ensures var start := Fresh(maxFailures, timeout);
            var b, last := Run(start, events), LastFailureAt(events);
            Allowed(b, now) <==>
              match b.status
              case Closed => true
              case Open => last.Some? && now - last.value > BackedOff(maxFailures, timeout, events)
              case HalfOpen => Asks(Episode(start, events)) < Half(maxFailures)
  {
    FailureIsRemembered(maxFailures, timeout, events);
    EpisodeIsCounted(maxFailures, timeout, events);
    TimeoutBacksOff(maxFailures, timeout, events);
  }

  /** And what state any call leaves: a closed breaker opens on the failure that completes the trailing run;
      an open one becomes half-open on an admitted request; a half-open one opens on a failure and closes on
      the success that makes a quarter of maxFailures since its episode began; a reset closes it. */
  lemma StatusFollowsHistory(maxFailures: int, timeout: int, events: seq<Event>, e: Event)
    ensures var start := Fresh(maxFailures, timeout);
            var b, after, last := Run(start, events), Run(start, events + [e]), LastFailureAt(events);
            after.status ==
              if e.Reset? then Closed
              else match b.status
                case Closed =>
                  if e.Failure? && TrailingFailures(start, events + [e]) >= maxFailures then Open else Closed
                case Open =>
                  if e.Allow? && last.Some? && e.now - last.value > BackedOff(maxFailures, timeout, events)
                  then HalfOpen else Open
                case HalfOpen =>
                  if e.Failure? then Open
                  else if e.Success? && Successes(Episode(start, events)) + 1 >= Half(Half(maxFailures)) then Closed
                  else HalfOpen
  {
    var start := Fresh(maxFailures, timeout);
    Appended(start, events, e);
    EpisodeIsCounted(maxFailures, timeout, events);
    match Run(start, events).status
    case Closed => OpensAtMaxFailures(maxFailures, timeout, events, e);
    case Open => OpenFollowsHistory(maxFailures, timeout, events, e);
    case HalfOpen =>
  }

  /** A Call asks, and records its outcome exactly if it was admitted. */
  lemma CallsAreEvents(b: Breaker, c: Call)
    ensures AfterCall(b, c)
            == Run(b, [Allow(c.asked)] + if !Allowed(b, c.asked) then []
                                         else if c.ok then [Success] else [Failure(c.ended)])
  {
    var ask := [Allow(c.asked)];
    assert ask[..0] == [] && ask + [] == ask;
    assert (ask + [Success])[..1] == ask && (ask + [Failure(c.ended)])[..1] == ask;
    assert Run(b, ask) == Step(b, Allow(c.asked));
  }

  lemma OpenFollowsHistory(maxFailures: int, timeout: int, events: seq<Event>, e: Event)
    requires Run(Fresh(maxFailures, timeout), events).status.Open?
    ensures var b, last := Run(Fresh(maxFailures, timeout), events), LastFailureAt(events);
            Step(b, e).status ==
              if e.Reset? then Closed
              else if e.Allow? && last.Some? && e.now - last.value > BackedOff(maxFailures, timeout, events)
              then HalfOpen else Open
  {
    if e.Allow? {
      AdmissionFollowsHistory(maxFailures, timeout, events, e.now);
    }
  }
}
