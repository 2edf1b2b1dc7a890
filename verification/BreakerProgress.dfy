/** Whether a half-open breaker can get stuck: turning callers away while nobody is left to decide it.

    The callers of `BreakerMachine` keep to the discipline of Call: they ask, and record an outcome once
    if and only if they were admitted. */
module BreakerProgress {
  import opened Arith
  import opened CircuitBreaker
  import opened Collections
  import opened BreakerMachine

  /** `serving` are the callers that were admitted and are running their function. */
  datatype Client = Client(s: State, serving: set<nat>)

  /** The next operation of this thread returns from AllowRequest with an admission. */
  predicate Admits(x: Own) {
    (x.pc.LoadState? && x.b.status.Closed?)
    || (x.pc.CountProbe? && x.b.halfOpenRequests + 1 <= x.b.maxRequests)
    || (x.pc.Storing? && x.pc.target.HalfOpen? && x.pc.stored >= Stores(HalfOpen) && !x.pc.backoff)
  }

  /** One move of a disciplined caller; a move against the discipline is a stutter, and so is a reset by
      hand. */
  function Do(c: Client, m: Move): Client {
    var t := m.thread;
    if t >= |c.s.threads| then c
    else
      match m.request
      case Continue(_) =>
        Client(Take(c.s, m), if Admits(OwnOf(c.s, t)) then c.serving + {t} else c.serving)
      case CallAllow => if t in c.serving then c else Client(Take(c.s, m), c.serving)
      case CallReset => c
      case _ => if t in c.serving && c.s.threads[t].Resting? then Client(Take(c.s, m), c.serving - {t}) else c
  }

  function Does(c: Client, schedule: seq<Move>): Client
    decreases |schedule|
  {
    if schedule == [] then c else Does(Do(c, schedule[0]), schedule[1..])
  }

  /** The breaker is half-open before, during and after these moves. */
  predicate KeepsHalfOpen(c: Client, schedule: seq<Move>)
    decreases |schedule|
  {
    c.s.b.status.HalfOpen? && (schedule == [] || KeepsHalfOpen(Do(c, schedule[0]), schedule[1..]))
  }

  /** Half-open, the quota used up, and nobody running or recording. */
  ghost predicate Stuck(c: Client) {
    && c.s.b.status.HalfOpen? && c.s.b.halfOpenRequests >= Quota(c.s.b) && c.s.lock.None? && c.serving == {}
    && forall t :: 0 <= t < |c.s.threads| ==> Asks(c.s.threads[t])
  }

  predicate Asks(pc: Pc) {
    pc.Resting? || pc.LoadState? || pc.CountProbe?
  }

  /** Being stuck is for ever: whatever callers do, nobody is admitted any more. */
  lemma {:induction false} StuckForever(c: Client, schedule: seq<Move>)
    requires Stuck(c)
    ensures Stuck(Does(c, schedule)) && Admitted(Does(c, schedule).s) == Admitted(c.s)
    decreases |schedule|
  {
    if schedule != [] {
      var c' := Do(c, schedule[0]);
      assert |c'.s.threads| == |c.s.threads|;
      StuckForever(c', schedule[1..]);
    }
  }

  // ---- When a half-open breaker cannot get stuck ----

  /** Probes the counter still admits. */
  function Left(b: Breaker): nat {
    Max(0, Quota(b) - b.halfOpenRequests)
  }

  /** The successes that close the breaker. */
  function Needed(b: Breaker): int {
    Quot(b.maxRequests, 2)
  }

  /** A thread whose call decides the episode: it records a failure, or opens or closes the breaker. */
  predicate Decides(pc: Pc) {
    pc.StampFailure? || pc.LoadForFailure? || ((pc.Locking? || pc.Storing?) && !pc.target.HalfOpen?)
  }

  /** A thread that records a success or is about to be admitted by its transition to half-open. */
  predicate Engaged(pc: Pc) {
    pc.LoadForSuccess? || pc.CountSuccess? || Enters(pc)
  }

  /** Callers that are running or engaged. */
  function UnderWay(threads: seq<Pc>, serving: set<nat>): nat {
    if threads == [] then 0
    else
      var last := |threads| - 1;
      UnderWay(threads[..last], serving) + if last in serving || Engaged(threads[last]) then 1 else 0
  }

  lemma {:induction false} UnderWayUpdate(threads: seq<Pc>, serving: set<nat>, t: nat, pc: Pc, serving': set<nat>)
    requires t < |threads| && forall u: nat :: u != t ==> (u in serving' <==> u in serving)
    ensures UnderWay(threads[t := pc], serving')
            == UnderWay(threads, serving) - (if t in serving || Engaged(threads[t]) then 1 else 0)
               + if t in serving' || Engaged(pc) then 1 else 0
  {
    var last := |threads| - 1;
    if t == last {
      assert threads[t := pc][..last] == threads[..last];
      SameUnderWay(threads[..last], serving, serving');
    } else {
      assert threads[t := pc][..last] == threads[..last][t := pc];
      UnderWayUpdate(threads[..last], serving, t, pc, serving');
    }
  }

  lemma {:induction false} SameUnderWay(threads: seq<Pc>, a: set<nat>, b: set<nat>)
    requires forall u :: 0 <= u < |threads| ==> (u in a <==> u in b)
    ensures UnderWay(threads, a) == UnderWay(threads, b)
  {
    if threads != [] {
      SameUnderWay(threads[..|threads| - 1], a, b);
    }
  }

  lemma {:induction false} NobodyUnderWay(threads: seq<Pc>, serving: set<nat>)
    ensures UnderWay(threads, serving) == 0 <==>
              forall t :: 0 <= t < |threads| ==> t !in serving && !Engaged(threads[t])
  {
    if threads != [] {
      NobodyUnderWay(threads[..|threads| - 1], serving);
    }
  }

  /** Holds at every moment of every run. */
  ghost predicate Sound(c: Client) {
    && Locked(c.s) && c.s.b.halfOpenRequests >= 0 && c.s.b.successes >= 0
    && forall t :: t in c.serving ==> t < |c.s.threads| && c.s.threads[t].Resting?
  }

  /** Whoever counts the success that is enough goes on to close the breaker, and resets the count. */
  predicate WillClose(pc: Pc) {
    (pc.Locking? || pc.Storing?) && pc.target.Closed? && (pc.Storing? ==> pc.stored <= 1)
  }

  /** This also holds at every moment of every run. */
  ghost predicate Counted(c: Client) {
    c.s.b.successes >= Needed(c.s.b) >= 1 ==> exists t :: 0 <= t < |c.s.threads| && WillClose(c.s.threads[t])
  }

  /** Nobody else can enter the episode. */
  ghost predicate NobodyEnters(c: Client) {
    forall t :: 0 <= t < |c.s.threads| ==> !SawOpen(c.s.threads[t]) && !Enters(c.s.threads[t])
  }

  ghost predicate Decided(c: Client) {
    exists t :: 0 <= t < |c.s.threads| && Decides(c.s.threads[t])
  }

  /** The successes so far and those still possible are enough; a caller that enters now and is about to
      reset the count of successes leaves enough. */
  ghost predicate Promising(c: Client) {
    var b, u := c.s.b, UnderWay(c.s.threads, c.serving) + Left(c.s.b);
    && u >= 1 && b.successes + u >= Needed(b)
    && forall t :: 0 <= t < |c.s.threads| && Resets(c.s.threads[t]) ==>
         b.successes + u >= Quota(b) + 1 && (b.successes < Needed(b) || Needed(b) <= 0)
  }

  predicate Resets(pc: Pc) {
    pc.Storing? && pc.target.HalfOpen? && pc.stored == 1
  }

  /** Somebody is deciding the episode, or it can still be closed. */
  ghost predicate Hopeful(c: Client) {
    Decided(c) || Promising(c)
  }

  lemma DoKeepsSound(c: Client, m: Move)
    requires Sound(c)
    ensures Sound(Do(c, m))
  {
    if m.thread < |c.s.threads| {
      TakeKeepsLocked(c.s, m);
    }
  }

  lemma DoKeepsCounted(c: Client, m: Move)
    requires Sound(c) && Counted(c)
    ensures Counted(Do(c, m))
  {
    var c', t := Do(c, m), m.thread;
    if c'.s.b.successes >= Needed(c'.s.b) >= 1 && t < |c.s.threads| {
      if c.s.b.successes >= Needed(c.s.b) {
        var u :| 0 <= u < |c.s.threads| && WillClose(c.s.threads[u]);
        CloserStays(c, m, u);
      } else {
        SuccessIsCounted(c, m);
        assert WillClose(c'.s.threads[t]);
      }
    }
  }

  lemma CloserStays(c: Client, m: Move, u: nat)
    requires u < |c.s.threads| && WillClose(c.s.threads[u]) && Do(c, m).s.b.successes > 0
    ensures u < |Do(c, m).s.threads| && WillClose(Do(c, m).s.threads[u])
  {
  }

  lemma SuccessIsCounted(c: Client, m: Move)
    requires c.s.b.successes < Needed(c.s.b) && 0 < Needed(c.s.b) <= Do(c, m).s.b.successes
    ensures m.thread < |Do(c, m).s.threads| && WillClose(Do(c, m).s.threads[m.thread])
  {
  }

  lemma DoKeepsNobodyEnters(c: Client, m: Move)
    requires NobodyEnters(c) && c.s.b.status.HalfOpen?
    ensures NobodyEnters(Do(c, m))
  {
  }

  /** A thread that decides the episode goes on deciding as long as the breaker is half-open. */
  lemma DeciderStays(c: Client, m: Move, t: nat)
    requires Sound(c) && c.s.b.status.HalfOpen? && Do(c, m).s.b.status.HalfOpen?
    requires t < |c.s.threads| && Decides(c.s.threads[t])
    ensures t < |Do(c, m).s.threads| && Decides(Do(c, m).s.threads[t])
  {
  }

  /** A thread as it counts for `UnderWay`. */
  function Weight(c: Client, t: nat): nat
    requires t < |c.s.threads|
  {
    if t in c.serving || Engaged(c.s.threads[t]) then 1 else 0
  }

  /** One move of a thread while nobody is deciding, apart from the stores of a transition. */
  lemma UndecidedMove(c: Client, m: Move)
    requires Sound(c) && c.s.b.status.HalfOpen? && m.thread < |c.s.threads| && !Decides(c.s.threads[m.thread])
    requires !(Enters(c.s.threads[m.thread]) && m.request.Continue?)
    ensures var c', t := Do(c, m), m.thread;
            && c'.s.threads == c.s.threads[t := c'.s.threads[t]] && c'.s.b.maxRequests == c.s.b.maxRequests
            && (forall u: nat :: u != t ==> (u in c'.serving <==> u in c.serving))
            && (Resets(c'.s.threads[t]) ==> Resets(c.s.threads[t]))
            && (|| Decides(c'.s.threads[t])
                || (c'.s.b.successes == c.s.b.successes
                    && Left(c'.s.b) + Weight(c', t) >= Left(c.s.b) + Weight(c, t))
                || (c'.s.b.successes == c.s.b.successes + 1 < Needed(c.s.b)
                    && Left(c'.s.b) == Left(c.s.b) && Weight(c', t) == Weight(c, t) - 1))
  {
  }

  /** One move of a caller that enters the episode. */
  lemma EntersMove(c: Client, m: Move)
    requires Sound(c) && c.s.b.status.HalfOpen? && m.thread < |c.s.threads|
    requires Enters(c.s.threads[m.thread]) && m.request.Continue?
    ensures var c', t, pc := Do(c, m), m.thread, c.s.threads[m.thread];
            && c'.s.threads == c.s.threads[t := c'.s.threads[t]] && c'.s.b.maxRequests == c.s.b.maxRequests
            && (forall u: nat :: u != t ==> (u in c'.serving <==> u in c.serving))
            && Weight(c', t) == Weight(c, t) == 1
            && (c'.s.b.successes == if Resets(pc) then 0 else c.s.b.successes)
            && (Resets(c'.s.threads[t]) ==> c'.s.b.halfOpenRequests == 0)
            && Left(c'.s.b) >= Left(c.s.b)
  {
  }

  lemma UndecidedKeepsHopeful(c: Client, m: Move)
    requires Sound(c) && c.s.b.status.HalfOpen? && m.thread < |c.s.threads| && !Decides(c.s.threads[m.thread])
    requires !(Enters(c.s.threads[m.thread]) && m.request.Continue?)
    requires Promising(c)
    ensures Hopeful(Do(c, m))
  {
    var c', t := Do(c, m), m.thread;
    UndecidedMove(c, m);
    UnderWayUpdate(c.s.threads, c.serving, t, c'.s.threads[t], c'.serving);
    assert Decides(c'.s.threads[t]) ==> Decided(c');
  }

  lemma EntersKeepsPromising(c: Client, m: Move)
    requires Sound(c) && c.s.b.status.HalfOpen? && m.thread < |c.s.threads|
    requires Enters(c.s.threads[m.thread]) && m.request.Continue?
    requires Promising(c) && (c.s.b.successes < Needed(c.s.b) || Needed(c.s.b) <= 0)
    ensures Promising(Do(c, m))
  {
    var c', t := Do(c, m), m.thread;
    EntersMove(c, m);
    UnderWayUpdate(c.s.threads, c.serving, t, c'.s.threads[t], c'.serving);
    NobodyUnderWay(c'.s.threads, c'.serving);
  }

  lemma EnoughDecides(c: Client)
    requires Counted(c)
    ensures c.s.b.successes >= Needed(c.s.b) >= 1 ==> Decided(c)
  {
    if t :| 0 <= t < |c.s.threads| && WillClose(c.s.threads[t]) {
      assert Decides(c.s.threads[t]);
    }
  }

  lemma DoKeepsHopeful(c: Client, m: Move)
    requires Sound(c) && (Counted(c) || NobodyEnters(c)) && Hopeful(c)
    requires c.s.b.status.HalfOpen? && Do(c, m).s.b.status.HalfOpen?
    ensures Hopeful(Do(c, m))
  {
    var t := m.thread;
    if t < |c.s.threads| {
      if u :| 0 <= u < |c.s.threads| && Decides(c.s.threads[u]) {
        DeciderStays(c, m, u);
      } else if Enters(c.s.threads[t]) && m.request.Continue? {
        EnoughDecides(c);
        EntersKeepsPromising(c, m);
      } else {
        UndecidedKeepsHopeful(c, m);
      }
    }
  }

  lemma {:induction false} EpisodeStaysHopeful(c: Client, schedule: seq<Move>)
    requires Sound(c) && (Counted(c) || NobodyEnters(c)) && Hopeful(c) && KeepsHalfOpen(c, schedule)
    ensures Hopeful(Does(c, schedule))
    decreases |schedule|
  {
    if schedule != [] {
      var c' := Do(c, schedule[0]);
      DoKeepsSound(c, schedule[0]);
      DoKeepsHopeful(c, schedule[0]);
      if Counted(c) {
        DoKeepsCounted(c, schedule[0]);
      } else {
        DoKeepsNobodyEnters(c, schedule[0]);
      }
      EpisodeStaysHopeful(c', schedule[1..]);
    }
  }

  lemma StuckIsHopeless(c: Client)
    requires Stuck(c)
    ensures !Hopeful(c)
  {
    NobodyUnderWay(c.s.threads, c.serving);
  }

  // ---- And when it can ----

  /** All calls have returned. */
  ghost predicate Calm(c: Client) {
    && c.s.b.status.HalfOpen? && c.s.lock.None? && c.s.b.halfOpenRequests >= 0 && c.s.b.successes >= 0
    && (forall t :: 0 <= t < |c.s.threads| ==> c.s.threads[t].Resting?)
    && forall t :: t in c.serving ==> t < |c.s.threads|
  }

  /** A call of two steps, from a resting thread. */
  function Brief(t: nat, r: Request): seq<Move> {
    [Move(t, r)] + Going(t, 0, 2)
  }

  lemma BriefDoes(c: Client, t: nat, r: Request)
    ensures var c1 := Do(c, Move(t, r));
            var c2 := Do(c1, Move(t, Continue(0)));
            var c3 := Do(c2, Move(t, Continue(0)));
            && Does(c, Brief(t, r)) == c3
            && (KeepsHalfOpen(c, Brief(t, r)) <==>
                  && c.s.b.status.HalfOpen? && c1.s.b.status.HalfOpen?
                  && c2.s.b.status.HalfOpen? && c3.s.b.status.HalfOpen?)
  {
    var go := Move(t, Continue(0));
    var c1 := Do(c, Move(t, r));
    var c2 := Do(c1, go);
    assert Brief(t, r)[1..] == Going(t, 0, 2);
    assert Going(t, 0, 2) == [go] + Going(t, 0, 1) && Going(t, 0, 2)[1..] == Going(t, 0, 1);
    assert Going(t, 0, 1) == [go] && Going(t, 0, 1)[1..] == [];
    assert Does(c1, Going(t, 0, 2)) == Does(c2, Going(t, 0, 1)) == Does(Do(c2, go), []);
    assert KeepsHalfOpen(c2, Going(t, 0, 1)) <==> c2.s.b.status.HalfOpen? && KeepsHalfOpen(Do(c2, go), []);
  }

  lemma {:induction false} DoesThen(c: Client, a: seq<Move>, b: seq<Move>)
    ensures Does(c, a + b) == Does(Does(c, a), b)
    ensures KeepsHalfOpen(c, a + b) <==> KeepsHalfOpen(c, a) && KeepsHalfOpen(Does(c, a), b)
    decreases |a|
  {
    if a == [] {
      assert a + b == b;
    } else {
      assert (a + b)[1..] == a[1..] + b;
      DoesThen(Do(c, a[0]), a[1..], b);
    }
  }

  lemma {:induction false} SomeoneServing(threads: seq<Pc>, serving: set<nat>) returns (t: nat)
    requires UnderWay(threads, serving) > 0 && forall u :: 0 <= u < |threads| ==> threads[u].Resting?
    ensures t < |threads| && t in serving
  {
    if |threads| - 1 in serving {
      t := |threads| - 1;
    } else {
      t := SomeoneServing(threads[..|threads| - 1], serving);
    }
  }

  /** One success that does not close the breaker. */
  lemma OneSuccess(c: Client, t: nat)
    requires Calm(c) && t in c.serving && c.s.b.successes + 1 < Needed(c.s.b)
    ensures KeepsHalfOpen(c, Brief(t, CallSuccess))
    ensures Does(c, Brief(t, CallSuccess))
            == Client(c.s.(b := c.s.b.(successes := c.s.b.successes + 1)), c.serving - {t})
  {
    BriefDoes(c, t, CallSuccess);
    assert c.s.threads[t := LoadForSuccess][t := CountSuccess][t := Resting] == c.s.threads;
  }

  /** One more caller admitted by the counter. */
  lemma OneProbe(c: Client, t: nat)
    requires Calm(c) && t < |c.s.threads| && t !in c.serving && Left(c.s.b) > 0
    ensures KeepsHalfOpen(c, Brief(t, CallAllow))
    ensures Does(c, Brief(t, CallAllow)) == Client(Probed(c.s), c.serving + {t})
  {
    BriefDoes(c, t, CallAllow);
    assert c.s.threads[t := LoadState][t := CountProbe][t := Resting] == c.s.threads;
  }

  lemma {:induction false} GetsStuck(c: Client) returns (schedule: seq<Move>)
    requires Calm(c) && |c.s.threads| > 0
    requires var u := UnderWay(c.s.threads, c.serving) + Left(c.s.b); u == 0 || c.s.b.successes + u < Needed(c.s.b)
    ensures KeepsHalfOpen(c, schedule) && Stuck(Does(c, schedule))
    decreases UnderWay(c.s.threads, c.serving) + 2 * Left(c.s.b)
  {
    NobodyUnderWay(c.s.threads, c.serving);
    if UnderWay(c.s.threads, c.serving) > 0 {
      var t := SomeoneServing(c.s.threads, c.serving);
      OneSuccess(c, t);
      var c' := Does(c, Brief(t, CallSuccess));
      UnderWayUpdate(c.s.threads, c.serving, t, Resting, c'.serving);
      assert c.s.threads[t := Resting] == c.s.threads;
      var more := GetsStuck(c');
      DoesThen(c, Brief(t, CallSuccess), more);
      schedule := Brief(t, CallSuccess) + more;
    } else if Left(c.s.b) > 0 {
      OneProbe(c, 0);
      var c' := Does(c, Brief(0, CallAllow));
      UnderWayUpdate(c.s.threads, c.serving, 0, Resting, c'.serving);
      assert c.s.threads[0 := Resting] == c.s.threads;
      var more := GetsStuck(c');
      DoesThen(c, Brief(0, CallAllow), more);
      schedule := Brief(0, CallAllow) + more;
    } else {
      assert c.serving == {};
      schedule := [];
    }
  }

  /** A course of the episode that ends stuck. */
  ghost predicate Sticks(c: Client, schedule: seq<Move>) {
    KeepsHalfOpen(c, schedule) && Stuck(Does(c, schedule))
  }

  lemma HopefulDoesNotStick(c: Client, schedule: seq<Move>)
    requires Sound(c) && (Counted(c) || NobodyEnters(c)) && Hopeful(c)
    ensures !Sticks(c, schedule)
  {
    if KeepsHalfOpen(c, schedule) {
      EpisodeStaysHopeful(c, schedule);
      if Stuck(Does(c, schedule)) {
        StuckIsHopeless(Does(c, schedule));
      }
    }
  }

  /** Exactly when a half-open breaker can get stuck in its episode, at a moment when all calls have
      returned: if nobody is under way and the counter admits nobody any more, or if not even the success
      of everybody under way and everybody still to be admitted would be enough to close it. */
  lemma GetsStuckIff(c: Client)
    requires Calm(c) && |c.s.threads| > 0
    ensures var u := UnderWay(c.s.threads, c.serving) + Left(c.s.b);
            (exists schedule :: Sticks(c, schedule)) <==> u == 0 || c.s.b.successes + u < Needed(c.s.b)
  {
    var u := UnderWay(c.s.threads, c.serving) + Left(c.s.b);
    if u == 0 || c.s.b.successes + u < Needed(c.s.b) {
      var schedule := GetsStuck(c);
      assert Sticks(c, schedule);
    } else {
      forall schedule
        ensures !Sticks(c, schedule)
      {
        HopefulDoesNotStick(c, schedule);
      }
    }
  }
}
