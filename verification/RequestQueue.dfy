/** The bounded priority queue: enqueuers, workers and the shutdown drain, in any interleaving.

    One move is one atomic action of one goroutine: an atomic add, a select on channels, a send on a
    response channel. Whether a request's context is done at a select is chosen freely by the
    schedule, and so is the case taken when several are ready. */
module RequestQueue {

  type Req = nat

  datatype Level = HighQ | NormalQ | LowQ

  datatype Priority = High | Normal | Low | Unknown

  datatype Failure = QueueFull | Timeout | InvalidPriority

  datatype Status = Processed | GatewayTimeout | ShuttingDown

  datatype Answer = Answer(req: Req, status: Status)

  datatype Enqueuer =
    | Outside
    | Admitted(req: Req, priority: Priority)
    | Counted(req: Req, priority: Priority)
    | Offering(req: Req, level: Level)
    | Waiting(req: Req, level: Level)
    | GivingUp(req: Req, failure: Failure)

  datatype Worker =
    | Polling(level: Level)
    | Received(req: Req)
    | Taken(req: Req)
    | Running(req: Req)
    | Exited

  datatype Phase = Open | Joining | Draining | Closed

  datatype Channels = Channels(high: seq<Req>, normal: seq<Req>, low: seq<Req>)

  datatype State = State(
    queued: int, channels: Channels, enqueuers: seq<Enqueuer>, workers: seq<Worker>, phase: Phase,
    accepted: set<Req>, rejected: seq<(Req, Failure)>, answers: seq<Answer>)

  /** `done`: the context is done at this select. `first`: the case written first is taken when it is
      ready together with another. */
  datatype Move =
    | Enqueue(e: nat, req: Req, priority: Priority)
    | Advance(e: nat, first: bool, done: bool)
    | Work(w: nat, first: bool, done: bool)
    | HandToWorker(e: nat, w: nat)
    | Shutdown
    | Drain(level: Level)
    | HandToDrain(e: nat)

  // ---- Channels ----

  function Capacity(maxSize: nat, level: Level): nat {
    match level
    case HighQ => maxSize / 5
    case NormalQ => maxSize * 3 / 5
    case LowQ => maxSize / 5
  }

  function Contents(c: Channels, level: Level): seq<Req> {
    match level
    case HighQ => c.high
    case NormalQ => c.normal
    case LowQ => c.low
  }

  function Put(c: Channels, level: Level, q: seq<Req>): Channels {
    match level
    case HighQ => c.(high := q)
    case NormalQ => c.(normal := q)
    case LowQ => c.(low := q)
  }

  predicate HasRoom(maxSize: nat, c: Channels, level: Level) {
    |Contents(c, level)| < Capacity(maxSize, level)
  }

  // ---- Moves ----

  function Step(maxSize: nat, s: State, m: Move): State {
    match m
    case Enqueue(e, req, priority) =>
      if e < |s.enqueuers| && s.enqueuers[e].Outside? && MayEnqueue(s, req) then
        if s.queued >= maxSize then s.(rejected := s.rejected + [(req, QueueFull)])
        else SetEnqueuer(s, e, Admitted(req, priority))
      else s
    case Advance(e, first, done) =>
      if e < |s.enqueuers| then EnqueuerStep(maxSize, s, e, first, done) else s
    case Work(w, first, done) =>
      if w < |s.workers| then WorkerStep(s, w, first, done) else s
    case HandToWorker(e, w) =>
      if e < |s.enqueuers| && w < |s.workers| && CanOffer(s.enqueuers[e])
         && s.workers[w] == Polling(s.enqueuers[e].level) && Contents(s.channels, s.enqueuers[e].level) == [] then
        var req := s.enqueuers[e].req;
        SetWorker(SetEnqueuer(s.(accepted := s.accepted + {req}), e, Outside), w, Received(req))
      else s
    case Shutdown =>
      if s.phase.Open? then s.(phase := Joining)
      else if s.phase.Joining? && AllExited(s.workers) then s.(phase := Draining)
      else s
    case Drain(level) =>
      if !s.phase.Draining? then s
      else if Contents(s.channels, level) != [] then
        var q := Contents(s.channels, level);
        s.(channels := Put(s.channels, level, q[1..]), answers := s.answers + [Answer(q[0], ShuttingDown)])
      else if s.channels == Channels([], [], []) then s.(phase := Closed)
      else s
    case HandToDrain(e) =>
      if s.phase.Draining? && e < |s.enqueuers| && CanOffer(s.enqueuers[e])
         && Contents(s.channels, s.enqueuers[e].level) == [] then
        var req := s.enqueuers[e].req;
        SetEnqueuer(s.(accepted := s.accepted + {req}, answers := s.answers + [Answer(req, ShuttingDown)]), e, Outside)
      else s
  }

  /** A request may be tried again after a refusal, but not while it is being enqueued or once it has
      been accepted. */
  predicate MayEnqueue(s: State, req: Req) {
    req !in s.accepted &&
    forall e :: 0 <= e < |s.enqueuers| && !s.enqueuers[e].Outside? ==> s.enqueuers[e].req != req
  }

  predicate CanOffer(e: Enqueuer) {
    e.Offering? || e.Waiting?
  }

  function SetEnqueuer(s: State, e: nat, pc: Enqueuer): State
    requires e < |s.enqueuers|
  {
    s.(enqueuers := s.enqueuers[e := pc])
  }

  function SetWorker(s: State, w: nat, pc: Worker): State
    requires w < |s.workers|
  {
    s.(workers := s.workers[w := pc])
  }

  function EnqueuerStep(maxSize: nat, s: State, e: nat, first: bool, done: bool): State
    requires e < |s.enqueuers|
  {
    match s.enqueuers[e]
    case Outside => s
    case Admitted(req, priority) => SetEnqueuer(s.(queued := s.queued + 1), e, Counted(req, priority))
    case Counted(req, priority) =>
      SetEnqueuer(s, e,
        if done then GivingUp(req, Timeout)
        else match priority
          case High => Offering(req, HighQ)
          case Normal => Offering(req, NormalQ)
          case Low => Offering(req, LowQ)
          case Unknown => GivingUp(req, InvalidPriority))
    case Offering(req, level) =>
      if HasRoom(maxSize, s.channels, level) && (first || !done) then Send(s, e, req, level)
      else SetEnqueuer(s, e,
        if done then GivingUp(req, Timeout)
        else match level
          case HighQ => Waiting(req, NormalQ)
          case NormalQ => Waiting(req, LowQ)
          case LowQ => GivingUp(req, QueueFull))
    case Waiting(req, level) =>
      if HasRoom(maxSize, s.channels, level) && (first || !done) then Send(s, e, req, level)
      else if done then SetEnqueuer(s, e, GivingUp(req, Timeout))
      else s
    case GivingUp(req, failure) =>
      SetEnqueuer(s.(queued := s.queued - 1, rejected := s.rejected + [(req, failure)]), e, Outside)
  }

  function Send(s: State, e: nat, req: Req, level: Level): State
    requires e < |s.enqueuers|
  {
    SetEnqueuer(s.(channels := Put(s.channels, level, Contents(s.channels, level) + [req]),
                   accepted := s.accepted + {req}), e, Outside)
  }

  function WorkerStep(s: State, w: nat, first: bool, done: bool): State
    requires w < |s.workers|
  {
    match s.workers[w]
    case Exited => s
    case Polling(level) =>
      var q := Contents(s.channels, level);
      if !s.phase.Open? && (first || q == []) then SetWorker(s, w, Exited)
      else if q != [] then SetWorker(s.(channels := Put(s.channels, level, q[1..])), w, Received(q[0]))
      else SetWorker(s, w, Polling(match level case HighQ => NormalQ case NormalQ => LowQ case LowQ => HighQ))
    case Received(req) => SetWorker(s.(queued := s.queued - 1), w, Taken(req))
    case Taken(req) => if done then Respond(s, w, req, GatewayTimeout) else SetWorker(s, w, Running(req))
    case Running(req) => Respond(s, w, req, if first then Processed else GatewayTimeout)
  }

  function Respond(s: State, w: nat, req: Req, status: Status): State
    requires w < |s.workers|
  {
    SetWorker(s.(answers := s.answers + [Answer(req, status)]), w, Polling(HighQ))
  }

  function Start(enqueuers: nat, workers: nat): State {
    State(0, Channels([], [], []), seq(enqueuers, _ => Outside), seq(workers, _ => Polling(HighQ)), Open, {}, [], [])
  }

  function Run(maxSize: nat, s: State, schedule: seq<Move>): State {
    if schedule == [] then s
    else Step(maxSize, Run(maxSize, s, schedule[..|schedule| - 1]), schedule[|schedule| - 1])
  }

  // ---- Where requests are ----

  /** How often a request occurs in a channel. */
  function In(q: seq<Req>, req: Req): nat {
    if q == [] then 0 else In(q[..|q| - 1], req) + if q[|q| - 1] == req then 1 else 0
  }

  /** How many workers have a request in their hands. */
  function HeldBy(workers: seq<Worker>, req: Req): nat {
    if workers == [] then 0 else HeldBy(workers[..|workers| - 1], req) + InHand(workers[|workers| - 1], req)
  }

  function InHand(w: Worker, req: Req): nat {
    if (w.Received? || w.Taken? || w.Running?) && w.req == req then 1 else 0
  }

  /** How often a request has been answered. */
  function AnswersTo(answers: seq<Answer>, req: Req): nat {
    if answers == [] then 0
    else AnswersTo(answers[..|answers| - 1], req) + if answers[|answers| - 1].req == req then 1 else 0
  }

  /** In how many places a request is: the channels, the workers' hands and the answers. */
  function Places(s: State, req: Req): nat {
    In(s.channels.high, req) + In(s.channels.normal, req) + In(s.channels.low, req)
    + HeldBy(s.workers, req) + AnswersTo(s.answers, req)
  }

  // ---- What the counter counts ----

  /** Enqueuers between their increment of `queued` and their return. */
  function Holding(enqueuers: seq<Enqueuer>): nat {
    if enqueuers == [] then 0 else Holding(enqueuers[..|enqueuers| - 1]) + Hold(enqueuers[|enqueuers| - 1])
  }

  function Hold(e: Enqueuer): nat {
    if e.Outside? || e.Admitted? then 0 else 1
  }

  /** Workers that have received a request and not yet decremented `queued`. */
  function Uncounted(workers: seq<Worker>): nat {
    if workers == [] then 0
    else Uncounted(workers[..|workers| - 1]) + if workers[|workers| - 1].Received? then 1 else 0
  }

  /** Requests answered by the drain, which does not decrement `queued`. */
  function Drained(answers: seq<Answer>): nat {
    if answers == [] then 0
    else Drained(answers[..|answers| - 1]) + if answers[|answers| - 1].status.ShuttingDown? then 1 else 0
  }

  function Queued(s: State): int {
    |s.channels.high| + |s.channels.normal| + |s.channels.low|
    + Holding(s.enqueuers) + Uncounted(s.workers) + Drained(s.answers)
  }

  // ---- The invariant ----

  ghost predicate Located(s: State, req: Req) {
    Places(s, req) == if req in s.accepted then 1 else 0
  }

  ghost predicate Inv(maxSize: nat, s: State) {
    && (forall req :: Located(s, req))
    && s.queued == Queued(s)
    && Bounded(maxSize, s.channels)
    && OwnRequests(s)
    && (s.phase.Draining? || s.phase.Closed? ==> AllExited(s.workers))
  }

  ghost predicate Bounded(maxSize: nat, c: Channels) {
    && |c.high| <= Capacity(maxSize, HighQ)
    && |c.normal| <= Capacity(maxSize, NormalQ)
    && |c.low| <= Capacity(maxSize, LowQ)
  }

  /** No two enqueuers carry the same request, and none carries an accepted one. */
  ghost predicate OwnRequests(s: State) {
    && (forall e :: 0 <= e < |s.enqueuers| && !s.enqueuers[e].Outside? ==> s.enqueuers[e].req !in s.accepted)
    && (forall e, f :: 0 <= e < f < |s.enqueuers| && !s.enqueuers[e].Outside? && !s.enqueuers[f].Outside? ==>
          s.enqueuers[e].req != s.enqueuers[f].req)
  }

  predicate AllExited(workers: seq<Worker>) {
    forall w :: 0 <= w < |workers| ==> workers[w].Exited?
  }

  lemma {:induction false} HeldByUpdate(workers: seq<Worker>, w: nat, pc: Worker, req: Req)
    requires w < |workers|
    ensures HeldBy(workers[w := pc], req) == HeldBy(workers, req) - InHand(workers[w], req) + InHand(pc, req)
  {
    var last := |workers| - 1;
    if w == last {
      assert workers[w := pc][..last] == workers[..last];
    } else {
      assert workers[w := pc][..last] == workers[..last][w := pc];
      HeldByUpdate(workers[..last], w, pc, req);
    }
  }

  lemma {:induction false} UncountedUpdate(workers: seq<Worker>, w: nat, pc: Worker)
    requires w < |workers|
    ensures Uncounted(workers[w := pc])
            == Uncounted(workers) - (if workers[w].Received? then 1 else 0) + if pc.Received? then 1 else 0
  {
    var last := |workers| - 1;
    if w == last {
      assert workers[w := pc][..last] == workers[..last];
    } else {
      assert workers[w := pc][..last] == workers[..last][w := pc];
      UncountedUpdate(workers[..last], w, pc);
    }
  }

  lemma {:induction false} EnqueuerUpdate(enqueuers: seq<Enqueuer>, e: nat, pc: Enqueuer)
    requires e < |enqueuers|
    ensures Holding(enqueuers[e := pc]) == Holding(enqueuers) - Hold(enqueuers[e]) + Hold(pc)
  {
    var last := |enqueuers| - 1;
    if e == last {
      assert enqueuers[e := pc][..last] == enqueuers[..last];
    } else {
      assert enqueuers[e := pc][..last] == enqueuers[..last][e := pc];
      EnqueuerUpdate(enqueuers[..last], e, pc);
    }
  }

  lemma AnswerAdded(answers: seq<Answer>, a: Answer, req: Req)
    ensures AnswersTo(answers + [a], req) == AnswersTo(answers, req) + if a.req == req then 1 else 0
    ensures Drained(answers + [a]) == Drained(answers) + if a.status.ShuttingDown? then 1 else 0
  {
    assert (answers + [a])[..|answers|] == answers;
  }

  lemma Appended(q: seq<Req>, x: Req, req: Req)
    ensures In(q + [x], req) == In(q, req) + if x == req then 1 else 0
  {
    assert (q + [x])[..|q|] == q;
  }

  lemma {:induction false} HeadRemoved(q: seq<Req>, req: Req)
    requires q != []
    ensures In(q[1..], req) == In(q, req) - if q[0] == req then 1 else 0
  {
    if |q| > 1 {
      HeadRemoved(q[..|q| - 1], req);
      assert q[1..][..|q| - 2] == q[..|q| - 1][1..];
    } else {
      assert q[..0] == [] && In(q, req) == if q[0] == req then 1 else 0;
    }
  }

  // ---- Every move keeps requests located and the counter exact ----

  /** The two accounts: where one request is, and what the counter counts. */
  ghost predicate Accounted(s: State, x: Req) {
    Located(s, x) && s.queued == Queued(s)
  }

  /** An enqueuer that only moves on, with the change of `queued` that goes with it. */
  lemma EnqueuerMoves(s: State, e: nat, pc: Enqueuer, x: Req)
    requires e < |s.enqueuers| && Accounted(s, x)
    ensures Accounted(SetEnqueuer(s.(queued := s.queued + Hold(pc) - Hold(s.enqueuers[e])), e, pc), x)
  {
    EnqueuerUpdate(s.enqueuers, e, pc);
  }

  lemma SendAccounts(s: State, e: nat, x: Req)
    requires e < |s.enqueuers| && CanOffer(s.enqueuers[e]) && s.enqueuers[e].req !in s.accepted && Accounted(s, x)
    ensures Accounted(Send(s, e, s.enqueuers[e].req, s.enqueuers[e].level), x)
  {
    EnqueuerUpdate(s.enqueuers, e, Outside);
    Appended(Contents(s.channels, s.enqueuers[e].level), s.enqueuers[e].req, x);
  }

  /** An enqueuer's step that does not send changes only its place, its hold on `queued` and the list
      of refusals. */
  lemma EnqueuerStepShape(maxSize: nat, s: State, e: nat, first: bool, done: bool)
    requires e < |s.enqueuers|
    ensures var s', pc := EnqueuerStep(maxSize, s, e, first, done), s.enqueuers[e];
            var pc' := s'.enqueuers[e];
            if CanOffer(pc) && pc'.Outside? then s' == Send(s, e, pc.req, pc.level)
            else s' == SetEnqueuer(s.(queued := s.queued + Hold(pc') - Hold(pc)), e, pc').(rejected := s'.rejected)
  {
  }

  lemma RefusalsDoNotCount(s: State, rejected: seq<(Req, Failure)>, x: Req)
    requires Accounted(s, x)
    ensures Accounted(s.(rejected := rejected), x)
  {
  }

  lemma EnqueuerAccounts(maxSize: nat, s: State, e: nat, first: bool, done: bool, x: Req)
    requires e < |s.enqueuers| && OwnRequests(s) && Accounted(s, x)
    ensures Accounted(EnqueuerStep(maxSize, s, e, first, done), x)
  {
    var s' := EnqueuerStep(maxSize, s, e, first, done);
    var pc, pc' := s.enqueuers[e], s'.enqueuers[e];
    EnqueuerStepShape(maxSize, s, e, first, done);
    if CanOffer(pc) && pc'.Outside? {
      SendAccounts(s, e, x);
    } else {
      EnqueuerMoves(s, e, pc', x);
      RefusalsDoNotCount(SetEnqueuer(s.(queued := s.queued + Hold(pc') - Hold(pc)), e, pc'), s'.rejected, x);
    }
  }

  /** A worker that moves on with the same request, or with none. */
  lemma WorkerMoves(s: State, w: nat, pc: Worker, x: Req)
    requires w < |s.workers| && InHand(pc, x) == InHand(s.workers[w], x) && !pc.Received? && Accounted(s, x)
    ensures Accounted(SetWorker(s.(queued := s.queued - if s.workers[w].Received? then 1 else 0), w, pc), x)
  {
    HeldByUpdate(s.workers, w, pc, x);
    UncountedUpdate(s.workers, w, pc);
  }

  lemma ReceiveAccounts(s: State, w: nat, level: Level, x: Req)
    requires w < |s.workers| && s.workers[w].Polling? && Contents(s.channels, level) != [] && Accounted(s, x)
    ensures var q := Contents(s.channels, level);
            Accounted(SetWorker(s.(channels := Put(s.channels, level, q[1..])), w, Received(q[0])), x)
  {
    var q := Contents(s.channels, level);
    HeldByUpdate(s.workers, w, Received(q[0]), x);
    UncountedUpdate(s.workers, w, Received(q[0]));
    HeadRemoved(q, x);
  }

  lemma RespondAccounts(s: State, w: nat, status: Status, x: Req)
    requires w < |s.workers| && (s.workers[w].Taken? || s.workers[w].Running?) && !status.ShuttingDown?
    requires Accounted(s, x)
    ensures Accounted(Respond(s, w, s.workers[w].req, status), x)
  {
    HeldByUpdate(s.workers, w, Polling(HighQ), x);
    UncountedUpdate(s.workers, w, Polling(HighQ));
    AnswerAdded(s.answers, Answer(s.workers[w].req, status), x);
    var s' := Respond(s, w, s.workers[w].req, status);
    assert s'.channels == s.channels && s'.accepted == s.accepted;
    assert Places(s', x) == Places(s, x);
  }

  lemma WorkerAccounts(s: State, w: nat, first: bool, done: bool, x: Req)
    requires w < |s.workers| && Accounted(s, x)
    ensures Accounted(WorkerStep(s, w, first, done), x)
  {
    var s' := WorkerStep(s, w, first, done);
    match s.workers[w]
    case Exited =>
    case Polling(level) =>
      if s'.workers[w].Received? {
        ReceiveAccounts(s, w, level, x);
      } else {
        WorkerMoves(s, w, s'.workers[w], x);
      }
    case Received(req) => WorkerMoves(s, w, Taken(req), x);
    case Taken(req) =>
      if done {
        RespondAccounts(s, w, GatewayTimeout, x);
      } else {
        WorkerMoves(s, w, Running(req), x);
      }
    case Running(req) => RespondAccounts(s, w, if first then Processed else GatewayTimeout, x);
  }

  lemma HandToWorkerAccounts(s: State, e: nat, w: nat, x: Req)
    requires e < |s.enqueuers| && w < |s.workers| && CanOffer(s.enqueuers[e]) && s.workers[w].Polling?
    requires s.enqueuers[e].req !in s.accepted && Accounted(s, x)
    ensures var req := s.enqueuers[e].req;
            Accounted(SetWorker(SetEnqueuer(s.(accepted := s.accepted + {req}), e, Outside), w, Received(req)), x)
  {
    EnqueuerUpdate(s.enqueuers, e, Outside);
    HeldByUpdate(s.workers, w, Received(s.enqueuers[e].req), x);
    UncountedUpdate(s.workers, w, Received(s.enqueuers[e].req));
  }

  lemma DrainAccounts(s: State, level: Level, x: Req)
    requires Contents(s.channels, level) != [] && Accounted(s, x)
    ensures var q := Contents(s.channels, level);
            Accounted(s.(channels := Put(s.channels, level, q[1..]),
                         answers := s.answers + [Answer(q[0], ShuttingDown)]), x)
  {
    var q := Contents(s.channels, level);
    HeadRemoved(q, x);
    AnswerAdded(s.answers, Answer(q[0], ShuttingDown), x);
  }

  lemma HandToDrainAccounts(s: State, e: nat, x: Req)
    requires e < |s.enqueuers| && CanOffer(s.enqueuers[e]) && s.enqueuers[e].req !in s.accepted && Accounted(s, x)
    ensures var req := s.enqueuers[e].req;
            Accounted(SetEnqueuer(s.(accepted := s.accepted + {req},
                                     answers := s.answers + [Answer(req, ShuttingDown)]), e, Outside), x)
  {
    EnqueuerUpdate(s.enqueuers, e, Outside);
    AnswerAdded(s.answers, Answer(s.enqueuers[e].req, ShuttingDown), x);
  }

  lemma StepAccounts(maxSize: nat, s: State, m: Move, x: Req)
    requires OwnRequests(s) && Accounted(s, x)
    ensures Accounted(Step(maxSize, s, m), x)
  {
    if Step(maxSize, s, m) == s {
      return;
    }
    match m
    case Enqueue(e, req, priority) =>
      if s.queued < maxSize {
        EnqueuerMoves(s, e, Admitted(req, priority), x);
      }
    case Advance(e, first, done) => EnqueuerAccounts(maxSize, s, e, first, done, x);
    case Work(w, first, done) => WorkerAccounts(s, w, first, done, x);
    case HandToWorker(e, w) => HandToWorkerAccounts(s, e, w, x);
    case Shutdown =>
    case Drain(level) =>
      if Contents(s.channels, level) != [] {
        DrainAccounts(s, level, x);
      }
    case HandToDrain(e) => HandToDrainAccounts(s, e, x);
  }

  lemma StepKeepsBounds(maxSize: nat, s: State, m: Move)
    requires Bounded(maxSize, s.channels)
    ensures Bounded(maxSize, Step(maxSize, s, m).channels)
  {
  }

  /** An enqueuer that goes on with its request, or is done with it. */
  lemma MovesKeepOwn(s: State, e: nat, pc: Enqueuer)
    requires OwnRequests(s) && e < |s.enqueuers|
    requires !pc.Outside? ==> !s.enqueuers[e].Outside? && pc.req == s.enqueuers[e].req
    ensures OwnRequests(SetEnqueuer(s, e, pc))
  {
  }

  lemma AcceptanceKeepsOwn(s: State, e: nat)
    requires OwnRequests(s) && e < |s.enqueuers| && !s.enqueuers[e].Outside?
    ensures OwnRequests(SetEnqueuer(s.(accepted := s.accepted + {s.enqueuers[e].req}), e, Outside))
  {
  }

  lemma EnqueuerKeepsOwn(maxSize: nat, s: State, e: nat, first: bool, done: bool)
    requires OwnRequests(s) && e < |s.enqueuers|
    ensures OwnRequests(EnqueuerStep(maxSize, s, e, first, done))
  {
    var s' := EnqueuerStep(maxSize, s, e, first, done);
    EnqueuerStepShape(maxSize, s, e, first, done);
    if CanOffer(s.enqueuers[e]) && s'.enqueuers[e].Outside? {
      AcceptanceKeepsOwn(s, e);
    } else {
      MovesKeepOwn(s, e, s'.enqueuers[e]);
    }
  }

  lemma StepKeepsOwn(maxSize: nat, s: State, m: Move)
    requires OwnRequests(s)
    ensures OwnRequests(Step(maxSize, s, m))
  {
    if Step(maxSize, s, m) == s {
      return;
    }
    match m
    case Advance(e, first, done) => EnqueuerKeepsOwn(maxSize, s, e, first, done);
    case HandToWorker(e, _) => AcceptanceKeepsOwn(s, e);
    case HandToDrain(e) => AcceptanceKeepsOwn(s, e);
    case _ =>
  }

  lemma StepKeepsExits(maxSize: nat, s: State, m: Move)
    requires s.phase.Draining? || s.phase.Closed? ==> AllExited(s.workers)
    ensures var s' := Step(maxSize, s, m); s'.phase.Draining? || s'.phase.Closed? ==> AllExited(s'.workers)
  {
  }

  lemma StepKeepsInv(maxSize: nat, s: State, m: Move)
    requires Inv(maxSize, s)
    ensures Inv(maxSize, Step(maxSize, s, m))
  {
    var s' := Step(maxSize, s, m);
    forall x
      ensures Located(s', x) && s'.queued == Queued(s')
    {
      assert Located(s, x);
      StepAccounts(maxSize, s, m, x);
    }
    assert Located(s', 0);
    StepKeepsBounds(maxSize, s, m);
    StepKeepsOwn(maxSize, s, m);
    StepKeepsExits(maxSize, s, m);
  }

  lemma {:induction false} IdleWorkers(workers: seq<Worker>, req: Req)
    requires forall w :: 0 <= w < |workers| ==> workers[w].Polling? || workers[w].Exited?
    ensures HeldBy(workers, req) == 0 && Uncounted(workers) == 0
  {
    if workers != [] {
      IdleWorkers(workers[..|workers| - 1], req);
    }
  }

  lemma {:induction false} IdleEnqueuers(enqueuers: seq<Enqueuer>)
    requires forall e :: 0 <= e < |enqueuers| ==> enqueuers[e].Outside?
    ensures Holding(enqueuers) == 0
  {
    if enqueuers != [] {
      IdleEnqueuers(enqueuers[..|enqueuers| - 1]);
    }
  }

  lemma {:induction false} RunKeepsInv(maxSize: nat, enqueuers: nat, workers: nat, schedule: seq<Move>)
    ensures Inv(maxSize, Run(maxSize, Start(enqueuers, workers), schedule))
  {
    if schedule == [] {
      var s := Start(enqueuers, workers);
      IdleEnqueuers(s.enqueuers);
      forall req
        ensures Located(s, req) && Uncounted(s.workers) == 0
      {
        IdleWorkers(s.workers, req);
      }
      assert Located(s, 0);
    } else {
      RunKeepsInv(maxSize, enqueuers, workers, schedule[..|schedule| - 1]);
      StepKeepsInv(maxSize, Run(maxSize, Start(enqueuers, workers), schedule[..|schedule| - 1]),
                   schedule[|schedule| - 1]);
    }
  }

  // ---- Main results ----

  /** Exactly once, at every moment of every run: an accepted request is in exactly one place (a
      channel, a worker's hands, or answered once), and any other request is in none. */
  lemma ExactlyOnce(maxSize: nat, enqueuers: nat, workers: nat, schedule: seq<Move>, req: Req)
    ensures var s := Run(maxSize, Start(enqueuers, workers), schedule);
            Places(s, req) == if req in s.accepted then 1 else 0
  {
    RunKeepsInv(maxSize, enqueuers, workers, schedule);
    assert Located(Run(maxSize, Start(enqueuers, workers), schedule), req);
  }

  /** The counter at every moment: channel contents, enqueuers holding an increment, workers that have
      received but not decremented, and what the drain has answered. */
  lemma CounterIsExact(maxSize: nat, enqueuers: nat, workers: nat, schedule: seq<Move>)
    ensures var s := Run(maxSize, Start(enqueuers, workers), schedule);
            s.queued == |s.channels.high| + |s.channels.normal| + |s.channels.low|
                        + Holding(s.enqueuers) + Uncounted(s.workers) + Drained(s.answers)
  {
    RunKeepsInv(maxSize, enqueuers, workers, schedule);
  }

  /** The channels never hold more than maxSize requests, although the capacity test and the
      increment are separate steps. */
  lemma NeverOverfull(maxSize: nat, enqueuers: nat, workers: nat, schedule: seq<Move>)
    ensures var c := Run(maxSize, Start(enqueuers, workers), schedule).channels;
            |c.high| + |c.normal| + |c.low| <= maxSize
  {
    RunKeepsInv(maxSize, enqueuers, workers, schedule);
  }

  // ---- Refusals ----

  /** The moves of one enqueuer, including being met by a worker or the drain. */
  predicate OwnMove(m: Move, e: nat) {
    match m
    case Enqueue(x, _, _) => x == e
    case Advance(x, _, _) => x == e
    case HandToWorker(x, _) => x == e
    case HandToDrain(x) => x == e
    case _ => false
  }

  /** What an enqueuer's own moves in a run have added to `queued`. */
  function OwnQueued(maxSize: nat, s: State, schedule: seq<Move>, e: nat): int {
    if schedule == [] then 0
    else
      var before, m := schedule[..|schedule| - 1], schedule[|schedule| - 1];
      var was := Run(maxSize, s, before);
      OwnQueued(maxSize, s, before, e) + if OwnMove(m, e) then Step(maxSize, was, m).queued - was.queued else 0
  }

  /** How many requests an enqueuer has got accepted in a run. */
  function OwnAccepted(maxSize: nat, s: State, schedule: seq<Move>, e: nat): nat {
    if schedule == [] then 0
    else
      var before, m := schedule[..|schedule| - 1], schedule[|schedule| - 1];
      var was := Run(maxSize, s, before);
      OwnAccepted(maxSize, s, before, e)
      + if OwnMove(m, e) && Step(maxSize, was, m).accepted != was.accepted then 1 else 0
  }

  /** None of an enqueuer's own moves in a run has touched a channel, a worker or an answer. */
  predicate OwnMovesInert(maxSize: nat, s: State, schedule: seq<Move>, e: nat) {
    schedule == [] ||
    var before, m := schedule[..|schedule| - 1], schedule[|schedule| - 1];
    var was := Run(maxSize, s, before);
    var now := Step(maxSize, was, m);
    && OwnMovesInert(maxSize, s, before, e)
    && (OwnMove(m, e) ==>
          && now.channels == was.channels && now.accepted == was.accepted
          && now.workers == was.workers && now.answers == was.answers)
  }

  lemma AdvanceEffect(maxSize: nat, s: State, e: nat, first: bool, done: bool)
    requires OwnRequests(s) && e < |s.enqueuers|
    ensures var s', pc := EnqueuerStep(maxSize, s, e, first, done), s.enqueuers[e];
            && s'.enqueuers == s.enqueuers[e := s'.enqueuers[e]] && s'.workers == s.workers && s'.answers == s.answers
            && if s'.accepted != s.accepted then s'.queued == s.queued && Hold(s'.enqueuers[e]) == 0 && Hold(pc) == 1
               else s'.channels == s.channels && s'.queued - s.queued == Hold(s'.enqueuers[e]) - Hold(pc)
  {
    EnqueuerStepShape(maxSize, s, e, first, done);
  }

  /** One move: only an enqueuer's own moves change its place; an acceptance keeps the increment of
      `queued`, and any other own move changes `queued` by what the enqueuer holds. */
  lemma OwnMoveEffect(maxSize: nat, s: State, m: Move, e: nat)
    requires OwnRequests(s) && e < |s.enqueuers|
    ensures var s' := Step(maxSize, s, m);
            && |s'.enqueuers| == |s.enqueuers|
            && if !OwnMove(m, e) then s'.enqueuers[e] == s.enqueuers[e]
               else if s'.accepted != s.accepted then
                 s'.queued == s.queued && Hold(s'.enqueuers[e]) == 0 && Hold(s.enqueuers[e]) == 1
               else
                 && s'.queued - s.queued == Hold(s'.enqueuers[e]) - Hold(s.enqueuers[e])
                 && s'.channels == s.channels && s'.workers == s.workers && s'.answers == s.answers
  {
    match m
    case Advance(x, first, done) =>
      if x < |s.enqueuers| {
        AdvanceEffect(maxSize, s, x, first, done);
      }
    case _ =>
  }

  /** In every interleaving, what an enqueuer's own moves have added to `queued` is what it holds now,
      plus one for each request it got accepted. */
  lemma {:induction false} OwnContribution(maxSize: nat, s: State, schedule: seq<Move>, e: nat)
    requires OwnRequests(s) && e < |s.enqueuers|
    ensures var s' := Run(maxSize, s, schedule);
            && OwnRequests(s') && |s'.enqueuers| == |s.enqueuers|
            && OwnQueued(maxSize, s, schedule, e)
               == Hold(s'.enqueuers[e]) - Hold(s.enqueuers[e]) + OwnAccepted(maxSize, s, schedule, e)
            && (OwnAccepted(maxSize, s, schedule, e) == 0 ==> OwnMovesInert(maxSize, s, schedule, e))
  {
    if schedule != [] {
      var before, m := schedule[..|schedule| - 1], schedule[|schedule| - 1];
      OwnContribution(maxSize, s, before, e);
      OwnMoveEffect(maxSize, Run(maxSize, s, before), m, e);
      StepKeepsOwn(maxSize, Run(maxSize, s, before), m);
    }
  }

  /** A call that returns an error leaves no trace. Over any run in which an enqueuer starts and ends
      outside, whatever others do in between: if it got nothing accepted, then its own moves have touched
      no channel, worker or answer and have added nothing to `queued` in all; and its net contribution to
      `queued` is always the number of requests it got accepted. */
  lemma RefusalLeavesNoTrace(maxSize: nat, s: State, schedule: seq<Move>, e: nat)
    requires OwnRequests(s) && e < |s.enqueuers| && s.enqueuers[e].Outside?
    requires var s' := Run(maxSize, s, schedule); e < |s'.enqueuers| && s'.enqueuers[e].Outside?
    ensures OwnQueued(maxSize, s, schedule, e) == OwnAccepted(maxSize, s, schedule, e)
    ensures OwnAccepted(maxSize, s, schedule, e) == 0 ==> OwnMovesInert(maxSize, s, schedule, e)
  {
    OwnContribution(maxSize, s, schedule, e);
  }

  // ---- Shutdown ----

  /** When Shutdown returns, every request accepted so far has been answered, exactly once. */
  lemma ShutdownAnswersEveryone(maxSize: nat, enqueuers: nat, workers: nat, schedule: seq<Move>, level: Level, req: Req)
    requires var s := Run(maxSize, Start(enqueuers, workers), schedule);
             s.phase.Draining? && Step(maxSize, s, Drain(level)).phase.Closed?
    ensures var s := Run(maxSize, Start(enqueuers, workers), schedule);
            AnswersTo(s.answers, req) == if req in s.accepted then 1 else 0
  {
    var s := Run(maxSize, Start(enqueuers, workers), schedule);
    RunKeepsInv(maxSize, enqueuers, workers, schedule);
    assert Located(s, req);
    IdleWorkers(s.workers, req);
  }

  /** Afterwards nobody is answered any more: the answers never change again. */
  lemma {:induction false} ClosedAnswersNobody(maxSize: nat, s: State, schedule: seq<Move>)
    requires Inv(maxSize, s) && s.phase.Closed?
    ensures var s' := Run(maxSize, s, schedule);
            Inv(maxSize, s') && s'.phase.Closed? && s'.answers == s.answers
  {
    if schedule != [] {
      var before := schedule[..|schedule| - 1];
      ClosedAnswersNobody(maxSize, s, before);
      ClosedStep(maxSize, Run(maxSize, s, before), schedule[|schedule| - 1]);
      StepKeepsInv(maxSize, Run(maxSize, s, before), schedule[|schedule| - 1]);
    }
  }

  lemma ClosedStep(maxSize: nat, s: State, m: Move)
    requires s.phase.Closed? && AllExited(s.workers)
    ensures var s' := Step(maxSize, s, m); s'.phase.Closed? && s'.answers == s.answers
  {
  }

  /** So an enqueuer that gets its request in after Shutdown has returned is told it was accepted, but
      the request stays in its channel for ever: an accepted request is answered if and only if it was
      accepted before Shutdown returned. */
  lemma AnsweredIffAcceptedInTime(maxSize: nat, s: State, schedule: seq<Move>, req: Req)
    requires Inv(maxSize, s) && s.phase.Closed? && s.channels == Channels([], [], [])
    requires req in Run(maxSize, s, schedule).accepted
    ensures AnswersTo(Run(maxSize, s, schedule).answers, req) == if req in s.accepted then 1 else 0
  {
    ClosedAnswersNobody(maxSize, s, schedule);
    assert Located(s, req);
    IdleWorkers(s.workers, req);
  }

  lemma RunAppends(maxSize: nat, s: State, schedule: seq<Move>, m: Move)
    ensures Run(maxSize, s, schedule + [m]) == Step(maxSize, Run(maxSize, s, schedule), m)
  {
    assert (schedule + [m])[..|schedule|] == schedule;
  }

  /** A Shutdown that overtakes a call which has just passed the capacity test. */
  const OVERTAKEN: seq<Move> := [Enqueue(0, 7, High)] + [Shutdown] + [Shutdown] + [Drain(HighQ)]

  lemma ShutdownOvertakes()
    ensures Run(10, Start(1, 0), OVERTAKEN) ==
              State(0, Channels([], [], []), [Admitted(7, High)], [], Closed, {}, [], [])
  {
    var s, m := Start(1, 0), [Enqueue(0, 7, High)];
    assert s.enqueuers == [Outside] && s.workers == [];
    assert [] + m == m;
    RunAppends(10, s, [], Enqueue(0, 7, High));
    RunAppends(10, s, m, Shutdown);
    RunAppends(10, s, m + [Shutdown], Shutdown);
    RunAppends(10, s, m + [Shutdown] + [Shutdown], Drain(HighQ));
  }

  /** Such late requests exist: one enqueuer, no worker, and a Shutdown that overtakes the call. */
  lemma LateRequestIsStranded()
    ensures exists schedule ::
              var s := Run(10, Start(1, 0), schedule);
              s.phase.Closed? && 7 in s.accepted && AnswersTo(s.answers, 7) == 0
  {
    var s, go := Start(1, 0), Advance(0, true, false);
    ShutdownOvertakes();
    RunAppends(10, s, OVERTAKEN, go);
    RunAppends(10, s, OVERTAKEN + [go], go);
    RunAppends(10, s, OVERTAKEN + [go] + [go], go);
    var late := Run(10, s, OVERTAKEN + [go] + [go] + [go]);
    assert late.phase.Closed? && late.accepted == {7} && late.answers == [];
  }
}
