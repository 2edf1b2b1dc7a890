/** Which requests the queue serves first: a journal of every run says how each request got in, what each
    refusal was for, and which channels a worker had found empty when it took a request. */
module QueueOrder {
  import opened RequestQueue

  /** What one call of Enqueue has seen so far: its priority, whether its context was done at one of its
      selects, and the channels it found full when it offered its request. */
  datatype Seen = Seen(priority: Priority, done: bool, full: set<Level>)

  /** How a request got in. */
  datatype Entry = Entry(call: Seen, level: Level)

  /** Why a request was refused; `crowded`: the counter had reached maxSize when the call began. */
  datatype Refusal = Refusal(req: Req, failure: Failure, call: Seen, crowded: bool)

  /** A worker taking a request, with the channels it has found empty since it last began with the high one. */
  datatype Taking = Taking(req: Req, level: Level, empty: set<Level>)

  /** `sent` and `left` are all requests that ever went into and out of each channel, in order. */
  datatype Journal = Journal(
    calls: map<nat, Seen>, entries: map<Req, Entry>, refusals: seq<Refusal>,
    rounds: map<nat, set<Level>>, takings: seq<Taking>, sent: Channels, left: Channels)

  const BLANK: Journal := Journal(map[], map[], [], map[], [], Channels([], [], []), Channels([], [], []))

  /** No room: a fifth of maxSize for high and for low requests, three fifths for normal ones. */
  predicate Full(maxSize: nat, c: Channels, level: Level) {
    match level
    case HighQ => |c.high| >= maxSize / 5
    case NormalQ => |c.normal| >= maxSize * 3 / 5
    case LowQ => |c.low| >= maxSize / 5
  }

  function CallOf(j: Journal, e: nat): Seen {
    if e in j.calls then j.calls[e] else Seen(Unknown, false, {})
  }

  function RoundOf(j: Journal, w: nat): set<Level> {
    if w in j.rounds then j.rounds[w] else {}
  }

  function Append(c: Channels, level: Level, req: Req): Channels {
    Put(c, level, Contents(c, level) + [req])
  }

  /** The journal after one more move, by comparing the states before and after it. */
  function Note(maxSize: nat, j: Journal, s: State, m: Move): Journal {
    var s' := Step(maxSize, s, m);
    match m
    case Enqueue(e, req, priority) =>
      if s' == s then j
      else if s'.rejected != s.rejected then
        j.(refusals := j.refusals + [Refusal(req, QueueFull, Seen(priority, false, {}), s.queued >= maxSize)])
      else j.(calls := j.calls[e := Seen(priority, false, {})])
    case Advance(e, _, done) =>
      if e >= |s.enqueuers| then j else NoteAdvance(maxSize, j, s, s', e, done)
    case Work(w, _, _) =>
      if w >= |s.workers| || w >= |s'.workers| then j else NoteWork(j, s, s', w)
    case HandToWorker(e, w) =>
      if s' == s || e >= |s.enqueuers| || !CanOffer(s.enqueuers[e]) then j
      else
        var req, level := s.enqueuers[e].req, s.enqueuers[e].level;
        Passed(j, req, level, CallOf(j, e)).(takings := j.takings + [Taking(req, level, RoundOf(j, w))])
    case Shutdown => j
    case Drain(level) =>
      if s'.channels == s.channels || Contents(s.channels, level) == [] then j
      else j.(left := Append(j.left, level, Contents(s.channels, level)[0]))
    case HandToDrain(e) =>
      if s' == s || e >= |s.enqueuers| || !CanOffer(s.enqueuers[e]) then j
      else Passed(j, s.enqueuers[e].req, s.enqueuers[e].level, CallOf(j, e))
  }

  /** A request handed over through an empty channel. */
  function Passed(j: Journal, req: Req, level: Level, call: Seen): Journal {
    j.(entries := j.entries[req := Entry(call, level)],
       sent := Append(j.sent, level, req), left := Append(j.left, level, req))
  }

  /** The channel that grew. */
  function Grown(before: Channels, after: Channels): Level {
    if |after.high| > |before.high| then HighQ else if |after.normal| > |before.normal| then NormalQ else LowQ
  }

  function NoteAdvance(maxSize: nat, j: Journal, s: State, s': State, e: nat, done: bool): Journal
    requires e < |s.enqueuers|
  {
    var was, pc := CallOf(j, e), s.enqueuers[e];
    var full := if CanOffer(pc) && Full(maxSize, s.channels, pc.level) then {pc.level} else {};
    var call := Seen(was.priority, was.done || (done && (pc.Counted? || CanOffer(pc))), was.full + full);
    if pc.Outside? then j
    else if s'.accepted != s.accepted then
      var level := Grown(s.channels, s'.channels);
      j.(entries := j.entries[pc.req := Entry(was, level)], sent := Append(j.sent, level, pc.req))
    else if |s'.rejected| > |s.rejected| then
      var (req, failure) := s'.rejected[|s.rejected|];
      j.(refusals := j.refusals + [Refusal(req, failure, was, false)])
    else j.(calls := j.calls[e := call])
  }

  function NoteWork(j: Journal, s: State, s': State, w: nat): Journal
    requires w < |s.workers| && w < |s'.workers|
  {
    var was, pc := s.workers[w], s'.workers[w];
    if was.Polling? && pc.Received? then
      var level := Grown(s'.channels, s.channels);
      j.(takings := j.takings + [Taking(pc.req, level, RoundOf(j, w))], left := Append(j.left, level, pc.req))
    else if was.Polling? && pc.Polling? && !pc.level.HighQ? && Contents(s.channels, was.level) == [] then
      j.(rounds := j.rounds[w := RoundOf(j, w) + {was.level}])
    else j.(rounds := j.rounds[w := {}])
  }

  function JournalOf(maxSize: nat, enqueuers: nat, workers: nat, schedule: seq<Move>): Journal {
    if schedule == [] then BLANK
    else
      var before := schedule[..|schedule| - 1];
      Note(maxSize, JournalOf(maxSize, enqueuers, workers, before), Run(maxSize, Start(enqueuers, workers), before),
           schedule[|schedule| - 1])
  }

  // ---- What the journal promises ----

  /** A request is in the channel of its priority, or in the next lower one after its own was full, and its
      call had not found its context done before. */
  predicate Routed(entry: Entry) {
    && !entry.call.done
    && match entry.level
       case HighQ => entry.call.priority.High?
       case NormalQ => entry.call.priority.Normal? || (entry.call.priority.High? && HighQ in entry.call.full)
       case LowQ => entry.call.priority.Low? || (entry.call.priority.Normal? && NormalQ in entry.call.full)
  }

  /** A refusal has its reason. */
  predicate Reasoned(r: Refusal) {
    match r.failure
    case QueueFull => r.crowded || (r.call.priority.Low? && LowQ in r.call.full)
    case Timeout => r.call.done
    case InvalidPriority => r.call.priority.Unknown?
  }

  /** Nothing more urgent was there when the worker looked. */
  predicate MostUrgent(t: Taking) {
    match t.level
    case HighQ => true
    case NormalQ => HighQ in t.empty
    case LowQ => HighQ in t.empty && NormalQ in t.empty
  }

  // ---- The invariant ----

  /** What a call has seen by the time it is at this place. */
  predicate Matches(pc: Enqueuer, call: Seen) {
    match pc
    case Outside => true
    case Admitted(_, priority) => call.priority == priority && !call.done
    case Counted(_, priority) => call.priority == priority && !call.done
    case Offering(_, level) => Routed(Entry(call.(full := {}), level))
    case Waiting(_, level) => !Routed(Entry(call.(full := {}), level)) && Routed(Entry(call, level))
    case GivingUp(req, failure) => Reasoned(Refusal(req, failure, call, false))
  }

  predicate Looked(pc: Worker, empty: set<Level>) {
    pc.Polling? ==> MostUrgent(Taking(0, pc.level, empty))
  }

  ghost predicate CallsMatch(s: State, j: Journal) {
    forall e :: 0 <= e < |s.enqueuers| ==> Matches(s.enqueuers[e], CallOf(j, e))
  }

  ghost predicate WorkersLooked(s: State, j: Journal) {
    && (forall w :: 0 <= w < |s.workers| ==> Looked(s.workers[w], RoundOf(j, w)))
    && forall t :: t in j.takings ==> MostUrgent(t)
  }

  ghost predicate EntriesRouted(s: State, j: Journal) {
    j.entries.Keys == s.accepted && forall req :: req in j.entries ==> Routed(j.entries[req])
  }

  /** The refusals are those of the state, each with its reason. */
  ghost predicate Listed(s: State, j: Journal) {
    && |j.refusals| == |s.rejected|
    && forall k :: 0 <= k < |s.rejected| ==>
         Reasoned(j.refusals[k]) && (j.refusals[k].req, j.refusals[k].failure) == s.rejected[k]
  }

  /** Requests leave each channel in the order in which they went in. */
  ghost predicate InOrder(s: State, j: Journal) {
    forall level :: Contents(j.sent, level) == Contents(j.left, level) + Contents(s.channels, level)
  }

  /** A request in a channel is entered there. */
  ghost predicate Filed(s: State, j: Journal) {
    forall level, req :: req in Contents(s.channels, level) ==> req in j.entries && j.entries[req].level == level
  }

  ghost predicate Kept(s: State, j: Journal) {
    CallsMatch(s, j) && WorkersLooked(s, j) && EntriesRouted(s, j) && Listed(s, j) && InOrder(s, j) && Filed(s, j)
  }

  // ---- Enqueue ----

  /** What a call does to its own place. */
  lemma OwnPlace(maxSize: nat, s: State, j: Journal, e: nat, first: bool, done: bool)
    requires CallsMatch(s, j) && e < |s.enqueuers|
    ensures var s' := EnqueuerStep(maxSize, s, e, first, done);
            var j' := NoteAdvance(maxSize, j, s, s', e, done);
            && s'.enqueuers == s.enqueuers[e := s'.enqueuers[e]] && s'.workers == s.workers
            && Matches(s'.enqueuers[e], CallOf(j', e))
            && (forall x :: x != e ==> CallOf(j', x) == CallOf(j, x))
            && j'.rounds == j.rounds && j'.takings == j.takings
  {
    assert Matches(s.enqueuers[e], CallOf(j, e));
  }

  /** What it sends. */
  lemma OwnSend(maxSize: nat, s: State, j: Journal, e: nat, first: bool, done: bool)
    requires CallsMatch(s, j) && OwnRequests(s) && e < |s.enqueuers|
    ensures var s', pc := EnqueuerStep(maxSize, s, e, first, done), s.enqueuers[e];
            var j' := NoteAdvance(maxSize, j, s, s', e, done);
            && j'.left == j.left
            && if s'.accepted == s.accepted
               then s'.channels == s.channels && j'.entries == j.entries && j'.sent == j.sent
               else
                 && CanOffer(pc) && Routed(Entry(CallOf(j, e), pc.level))
                 && s'.accepted == s.accepted + {pc.req} && s'.channels == Append(s.channels, pc.level, pc.req)
                 && j'.entries == j.entries[pc.req := Entry(CallOf(j, e), pc.level)]
                 && j'.sent == Append(j.sent, pc.level, pc.req)
  {
    assert Matches(s.enqueuers[e], CallOf(j, e));
    EnqueuerStepShape(maxSize, s, e, first, done);
    if CanOffer(s.enqueuers[e]) {
      assert s.enqueuers[e].req !in s.accepted;
    }
  }

  /** And what it answers. */
  lemma OwnRefusal(maxSize: nat, s: State, j: Journal, e: nat, first: bool, done: bool)
    requires CallsMatch(s, j) && Listed(s, j) && e < |s.enqueuers|
    ensures var s' := EnqueuerStep(maxSize, s, e, first, done);
            Listed(s', NoteAdvance(maxSize, j, s, s', e, done))
  {
    assert Matches(s.enqueuers[e], CallOf(j, e));
  }

  lemma SendKeepsOrder(s: State, s': State, j: Journal, j': Journal, level: Level, req: Req)
    requires InOrder(s, j) && j'.left == j.left
    requires s'.channels == Append(s.channels, level, req) && j'.sent == Append(j.sent, level, req)
    ensures InOrder(s', j')
  {
    forall l
      ensures Contents(j'.sent, l) == Contents(j'.left, l) + Contents(s'.channels, l)
    {
      assert Contents(j.sent, l) == Contents(j.left, l) + Contents(s.channels, l);
    }
  }

  lemma SendKeepsFiled(s: State, s': State, j: Journal, j': Journal, level: Level, req: Req, call: Seen)
    requires Filed(s, j) && EntriesRouted(s, j) && req !in s.accepted
    requires s'.channels == Append(s.channels, level, req) && j'.entries == j.entries[req := Entry(call, level)]
    ensures Filed(s', j')
  {
    forall l, x | x in Contents(s'.channels, l)
      ensures x in j'.entries && j'.entries[x].level == l
    {
      assert x in Contents(s.channels, l) || (l == level && x == req);
    }
  }

  lemma AdvanceKeeps(maxSize: nat, s: State, j: Journal, e: nat, first: bool, done: bool)
    requires Kept(s, j) && OwnRequests(s) && e < |s.enqueuers|
    ensures Kept(EnqueuerStep(maxSize, s, e, first, done), Note(maxSize, j, s, Advance(e, first, done)))
  {
    var s' := EnqueuerStep(maxSize, s, e, first, done);
    var j' := NoteAdvance(maxSize, j, s, s', e, done);
    OwnPlace(maxSize, s, j, e, first, done);
    OwnSend(maxSize, s, j, e, first, done);
    OwnRefusal(maxSize, s, j, e, first, done);
    if s'.accepted != s.accepted {
      var pc := s.enqueuers[e];
      SendKeepsOrder(s, s', j, j', pc.level, pc.req);
      SendKeepsFiled(s, s', j, j', pc.level, pc.req, CallOf(j, e));
    }
  }

  // ---- Workers ----

  lemma OwnLook(s: State, j: Journal, w: nat, first: bool, done: bool)
    requires WorkersLooked(s, j) && w < |s.workers|
    ensures var s' := WorkerStep(s, w, first, done);
            && s'.workers == s.workers[w := s'.workers[w]]
            && var j' := NoteWork(j, s, s', w);
            && Looked(s'.workers[w], RoundOf(j', w))
            && (forall x :: x != w ==> RoundOf(j', x) == RoundOf(j, x))
            && (j'.takings == j.takings || (|j'.takings| == |j.takings| + 1 && j'.takings[..|j.takings|] == j.takings
                                            && MostUrgent(j'.takings[|j.takings|])))
  {
    assert Looked(s.workers[w], RoundOf(j, w));
  }

  /** What a worker takes is the first of its channel. */
  lemma OwnTake(s: State, j: Journal, w: nat, first: bool, done: bool)
    requires w < |s.workers|
    ensures var s', pc := WorkerStep(s, w, first, done), s.workers[w];
            && |s'.workers| == |s.workers|
            && var j' := NoteWork(j, s, s', w);
            && s'.enqueuers == s.enqueuers && s'.accepted == s.accepted && s'.rejected == s.rejected
            && j'.calls == j.calls && j'.entries == j.entries && j'.refusals == j.refusals && j'.sent == j.sent
            && if s'.channels == s.channels then j'.left == j.left
               else
                 && pc.Polling? && Contents(s.channels, pc.level) != []
                 && var q := Contents(s.channels, pc.level);
                 && s'.channels == Put(s.channels, pc.level, q[1..]) && j'.left == Append(j.left, pc.level, q[0])
  {
  }

  lemma TakeKeepsOrder(s: State, s': State, j: Journal, j': Journal, level: Level)
    requires InOrder(s, j) && Contents(s.channels, level) != [] && j'.sent == j.sent
    requires var q := Contents(s.channels, level);
             s'.channels == Put(s.channels, level, q[1..]) && j'.left == Append(j.left, level, q[0])
    ensures InOrder(s', j')
  {
    forall l
      ensures Contents(j'.sent, l) == Contents(j'.left, l) + Contents(s'.channels, l)
    {
      assert Contents(j.sent, l) == Contents(j.left, l) + Contents(s.channels, l);
      if l == level {
        HeadMoves(Contents(j.left, level), Contents(s.channels, level));
      }
    }
  }

  lemma HeadMoves(left: seq<Req>, q: seq<Req>)
    requires q != []
    ensures left + q == left + [q[0]] + q[1..]
  {
  }

  lemma TakeKeepsFiled(s: State, s': State, j: Journal, j': Journal, level: Level)
    requires Filed(s, j) && Contents(s.channels, level) != [] && j'.entries == j.entries
    requires s'.channels == Put(s.channels, level, Contents(s.channels, level)[1..])
    ensures Filed(s', j')
  {
    forall l, x | x in Contents(s'.channels, l)
      ensures x in j'.entries && j'.entries[x].level == l
    {
      assert x in Contents(s.channels, l);
    }
  }

  lemma WorkKeeps(maxSize: nat, s: State, j: Journal, w: nat, first: bool, done: bool)
    requires Kept(s, j) && w < |s.workers|
    ensures Kept(WorkerStep(s, w, first, done), Note(maxSize, j, s, Work(w, first, done)))
  {
    var s' := WorkerStep(s, w, first, done);
    OwnLook(s, j, w, first, done);
    OwnTake(s, j, w, first, done);
    var j' := NoteWork(j, s, s', w);
    LooksKeep(s, s', j, j', w);
    if s'.channels != s.channels {
      TakeKeepsOrder(s, s', j, j', s.workers[w].level);
      TakeKeepsFiled(s, s', j, j', s.workers[w].level);
    }
  }

  lemma LooksKeep(s: State, s': State, j: Journal, j': Journal, w: nat)
    requires WorkersLooked(s, j) && w < |s.workers| == |s'.workers| && s'.workers == s.workers[w := s'.workers[w]]
    requires Looked(s'.workers[w], RoundOf(j', w)) && forall x :: x != w ==> RoundOf(j', x) == RoundOf(j, x)
    requires j'.takings == j.takings || (|j'.takings| == |j.takings| + 1 && j'.takings[..|j.takings|] == j.takings
                                         && MostUrgent(j'.takings[|j.takings|]))
    ensures WorkersLooked(s', j')
  {
    forall t | t in j'.takings
      ensures MostUrgent(t)
    {
      assert t in j.takings || t == j'.takings[|j.takings|];
    }
  }

  // ---- Requests handed over, and the drain ----

  /** A request that passes through an empty channel. */
  lemma PassKeeps(s: State, s': State, j: Journal, j': Journal, e: nat)
    requires CallsMatch(s, j) && EntriesRouted(s, j) && InOrder(s, j) && Filed(s, j) && OwnRequests(s)
    requires e < |s.enqueuers| && CanOffer(s.enqueuers[e]) && Contents(s.channels, s.enqueuers[e].level) == []
    requires s'.enqueuers == s.enqueuers[e := Outside] && s'.channels == s.channels
    requires s'.accepted == s.accepted + {s.enqueuers[e].req}
    requires var p := Passed(j, s.enqueuers[e].req, s.enqueuers[e].level, CallOf(j, e));
             j'.calls == p.calls && j'.entries == p.entries && j'.sent == p.sent && j'.left == p.left
    ensures CallsMatch(s', j') && EntriesRouted(s', j') && InOrder(s', j') && Filed(s', j')
  {
    var req, level := s.enqueuers[e].req, s.enqueuers[e].level;
    assert Matches(s.enqueuers[e], CallOf(j, e));
    forall l
      ensures Contents(j'.sent, l) == Contents(j'.left, l) + Contents(s'.channels, l)
    {
      assert Contents(j.sent, l) == Contents(j.left, l) + Contents(s.channels, l);
    }
    forall l, x | x in Contents(s'.channels, l)
      ensures x in j'.entries && j'.entries[x].level == l
    {
      assert x in Contents(s.channels, l);
    }
  }

  lemma HandToWorkerKeeps(maxSize: nat, s: State, j: Journal, e: nat, w: nat)
    requires Kept(s, j) && OwnRequests(s)
    ensures Kept(Step(maxSize, s, HandToWorker(e, w)), Note(maxSize, j, s, HandToWorker(e, w)))
  {
    var s', j' := Step(maxSize, s, HandToWorker(e, w)), Note(maxSize, j, s, HandToWorker(e, w));
    if s' != s {
      assert Looked(s.workers[w], RoundOf(j, w));
      PassKeeps(s, s', j, j', e);
      LooksKeep(s, s', j, j', w);
    }
  }

  lemma HandToDrainKeeps(maxSize: nat, s: State, j: Journal, e: nat)
    requires Kept(s, j) && OwnRequests(s)
    ensures Kept(Step(maxSize, s, HandToDrain(e)), Note(maxSize, j, s, HandToDrain(e)))
  {
    var s', j' := Step(maxSize, s, HandToDrain(e)), Note(maxSize, j, s, HandToDrain(e));
    if s' != s {
      PassKeeps(s, s', j, j', e);
    }
  }

  lemma DrainKeeps(maxSize: nat, s: State, j: Journal, level: Level)
    requires Kept(s, j)
    ensures Kept(Step(maxSize, s, Drain(level)), Note(maxSize, j, s, Drain(level)))
  {
    var s', j' := Step(maxSize, s, Drain(level)), Note(maxSize, j, s, Drain(level));
    if s'.channels != s.channels {
      TakeKeepsOrder(s, s', j, j', level);
      TakeKeepsFiled(s, s', j, j', level);
    }
  }

  lemma EnqueueKeeps(maxSize: nat, s: State, j: Journal, e: nat, req: Req, priority: Priority)
    requires Kept(s, j)
    ensures Kept(Step(maxSize, s, Enqueue(e, req, priority)), Note(maxSize, j, s, Enqueue(e, req, priority)))
  {
  }

  lemma StepKeeps(maxSize: nat, s: State, j: Journal, m: Move)
    requires Kept(s, j) && OwnRequests(s)
    ensures Kept(Step(maxSize, s, m), Note(maxSize, j, s, m))
  {
    match m
    case Enqueue(e, req, priority) => EnqueueKeeps(maxSize, s, j, e, req, priority);
    case Advance(e, first, done) =>
      if e < |s.enqueuers| {
        AdvanceKeeps(maxSize, s, j, e, first, done);
      }
    case Work(w, first, done) =>
      if w < |s.workers| {
        WorkKeeps(maxSize, s, j, w, first, done);
      }
    case HandToWorker(e, w) => HandToWorkerKeeps(maxSize, s, j, e, w);
    case HandToDrain(e) => HandToDrainKeeps(maxSize, s, j, e);
    case Drain(level) => DrainKeeps(maxSize, s, j, level);
    case Shutdown =>
  }

  lemma {:induction false} RunKeeps(maxSize: nat, enqueuers: nat, workers: nat, schedule: seq<Move>)
    ensures Kept(Run(maxSize, Start(enqueuers, workers), schedule), JournalOf(maxSize, enqueuers, workers, schedule))
  {
    if schedule != [] {
      var before, m := schedule[..|schedule| - 1], schedule[|schedule| - 1];
      var s, j := Run(maxSize, Start(enqueuers, workers), before), JournalOf(maxSize, enqueuers, workers, before);
      RunKeeps(maxSize, enqueuers, workers, before);
      RunKeepsInv(maxSize, enqueuers, workers, before);
      StepKeeps(maxSize, s, j, m);
    }
  }

  // ---- Main results ----

  /** In every run, every accepted request was enqueued with the priority of the channel it went into, or
      with the next higher priority by a call that had found that one's channel full, and by a call that had
      not found its context done before; no request of unknown priority is ever accepted; and every request in
      a channel went into that one. */
  lemma RequestsAreRouted(maxSize: nat, enqueuers: nat, workers: nat, schedule: seq<Move>, req: Req)
    requires req in Run(maxSize, Start(enqueuers, workers), schedule).accepted
    ensures var s := Run(maxSize, Start(enqueuers, workers), schedule);
            var j := JournalOf(maxSize, enqueuers, workers, schedule);
            && req in j.entries
            && var call := j.entries[req].call;
            && !call.done
            && (match j.entries[req].level
                case HighQ => call.priority == High
                case NormalQ => call.priority == Normal || (call.priority == High && HighQ in call.full)
                case LowQ => call.priority == Low || (call.priority == Normal && NormalQ in call.full))
            && (req in s.channels.high ==> j.entries[req].level == HighQ)
            && (req in s.channels.normal ==> j.entries[req].level == NormalQ)
            && (req in s.channels.low ==> j.entries[req].level == LowQ)
  {
    var s, j := Run(maxSize, Start(enqueuers, workers), schedule), JournalOf(maxSize, enqueuers, workers, schedule);
    RunKeeps(maxSize, enqueuers, workers, schedule);
    assert Routed(j.entries[req]);
    assert Contents(s.channels, HighQ) == s.channels.high && Contents(s.channels, NormalQ) == s.channels.normal
           && Contents(s.channels, LowQ) == s.channels.low;
  }

  /** Every refusal has its reason: full means that the counter had reached maxSize when the call began, or a
      low request that found the low channel full; a timeout that the context was done at one of the call's
      selects; an invalid priority that it was one. */
  lemma RefusalsHaveReasons(maxSize: nat, enqueuers: nat, workers: nat, schedule: seq<Move>, k: nat)
    requires k < |Run(maxSize, Start(enqueuers, workers), schedule).rejected|
    ensures var s := Run(maxSize, Start(enqueuers, workers), schedule);
            var j := JournalOf(maxSize, enqueuers, workers, schedule);
            && k < |j.refusals|
            && var r := j.refusals[k];
            && s.rejected[k] == (r.req, r.failure)
            && (match r.failure
                case QueueFull => r.crowded || (r.call.priority == Low && LowQ in r.call.full)
                case Timeout => r.call.done
                case InvalidPriority => r.call.priority == Unknown)
            && (r.call.priority == Unknown ==> r.crowded || r.call.done || r.failure == InvalidPriority)
  {
    RunKeeps(maxSize, enqueuers, workers, schedule);
  }

  /** Every worker that takes a request had found the more urgent channels empty since it last began with the
      high one. */
  lemma MostUrgentFirst(maxSize: nat, enqueuers: nat, workers: nat, schedule: seq<Move>, k: nat)
    requires k < |JournalOf(maxSize, enqueuers, workers, schedule).takings|
    ensures var t := JournalOf(maxSize, enqueuers, workers, schedule).takings[k];
            (t.level != HighQ ==> HighQ in t.empty) && (t.level == LowQ ==> NormalQ in t.empty)
  {
    var j := JournalOf(maxSize, enqueuers, workers, schedule);
    RunKeeps(maxSize, enqueuers, workers, schedule);
    assert j.takings[k] in j.takings && MostUrgent(j.takings[k]);
  }

  /** Each channel is a queue: what ever went into it is what has left it, in that order, and what it holds. */
  lemma ChannelsAreQueues(maxSize: nat, enqueuers: nat, workers: nat, schedule: seq<Move>)
    ensures var c, j := Run(maxSize, Start(enqueuers, workers), schedule).channels,
                        JournalOf(maxSize, enqueuers, workers, schedule);
            && j.sent.high == j.left.high + c.high
            && j.sent.normal == j.left.normal + c.normal
            && j.sent.low == j.left.low + c.low
  {
    var s, j := Run(maxSize, Start(enqueuers, workers), schedule), JournalOf(maxSize, enqueuers, workers, schedule);
    RunKeeps(maxSize, enqueuers, workers, schedule);
    assert Contents(j.sent, HighQ) == Contents(j.left, HighQ) + Contents(s.channels, HighQ);
    assert Contents(j.sent, NormalQ) == Contents(j.left, NormalQ) + Contents(s.channels, NormalQ);
    assert Contents(j.sent, LowQ) == Contents(j.left, LowQ) + Contents(s.channels, LowQ);
  }

  /** And never holds more than its share of maxSize. */
  lemma SharesAreKept(maxSize: nat, enqueuers: nat, workers: nat, schedule: seq<Move>)
    ensures var c := Run(maxSize, Start(enqueuers, workers), schedule).channels;
            |c.high| <= maxSize / 5 && |c.normal| <= maxSize * 3 / 5 && |c.low| <= maxSize / 5
  {
    RunKeepsInv(maxSize, enqueuers, workers, schedule);
  }

  // ---- One call alone ----

  /** An enqueuer going on for k moves, its context never being done. */
  function Alone(maxSize: nat, s: State, e: nat, k: nat): State
    decreases k
  {
    if k == 0 then s else Alone(maxSize, Step(maxSize, s, Advance(e, true, false)), e, k - 1)
  }

  lemma AloneStep(maxSize: nat, s: State, e: nat, k: nat)
    requires k > 0
    ensures Alone(maxSize, s, e, k) == Alone(maxSize, Step(maxSize, s, Advance(e, true, false)), e, k - 1)
  {
  }

  /** Where a request of this priority goes if nobody interferes: into the channel of its priority, else, for
      high and normal ones, into the next. */
  function Destination(maxSize: nat, c: Channels, priority: Priority): (r: seq<Level>)
    ensures |r| <= 1
  {
    if priority == High && |c.high| < maxSize / 5 then [HighQ]
    else if (priority == High || priority == Normal) && |c.normal| < maxSize * 3 / 5 then [NormalQ]
    else if (priority == Normal || priority == Low) && |c.low| < maxSize / 5 then [LowQ]
    else []
  }

  /** A request that is offered to its channel. */
  lemma OfferAlone(maxSize: nat, s: State, e: nat, req: Req, level: Level)
    requires e < |s.enqueuers| && s.enqueuers[e] == Offering(req, level)
    ensures Alone(maxSize, s, e, 2)
            == if !Full(maxSize, s.channels, level) then Send(s, e, req, level)
               else match level
                 case HighQ => if !Full(maxSize, s.channels, NormalQ) then Send(s, e, req, NormalQ)
                               else SetEnqueuer(s, e, Waiting(req, NormalQ))
                 case NormalQ => if !Full(maxSize, s.channels, LowQ) then Send(s, e, req, LowQ)
                                 else SetEnqueuer(s, e, Waiting(req, LowQ))
                 case LowQ =>
                   SetEnqueuer(s.(queued := s.queued - 1, rejected := s.rejected + [(req, QueueFull)]), e, Outside)
  {
    var s1 := Step(maxSize, s, Advance(e, true, false));
    var s2 := Step(maxSize, s1, Advance(e, true, false));
    AloneStep(maxSize, s, e, 2);
    AloneStep(maxSize, s1, e, 1);
    assert Alone(maxSize, s2, e, 0) == s2;
  }

  /** The first moves of a call, up to its choice by priority. */
  lemma BeginAlone(maxSize: nat, s: State, e: nat, req: Req, priority: Priority)
    requires e < |s.enqueuers| && s.enqueuers[e].Outside? && MayEnqueue(s, req) && s.queued < maxSize
    ensures Alone(maxSize, Step(maxSize, s, Enqueue(e, req, priority)), e, 4)
            == Alone(maxSize, SetEnqueuer(s.(queued := s.queued + 1), e, FirstPlace(req, priority)), e, 2)
  {
    var s1 := Step(maxSize, s, Enqueue(e, req, priority));
    var s2 := Step(maxSize, s1, Advance(e, true, false));
    var s3 := Step(maxSize, s2, Advance(e, true, false));
    AloneStep(maxSize, s1, e, 4);
    AloneStep(maxSize, s2, e, 3);
    Replaced(s.enqueuers, e, Admitted(req, priority), Counted(req, priority));
    Replaced(s.enqueuers, e, Counted(req, priority), FirstPlace(req, priority));
    assert s1 == SetEnqueuer(s, e, Admitted(req, priority));
  }

  lemma Replaced(enqueuers: seq<Enqueuer>, e: nat, x: Enqueuer, y: Enqueuer)
    requires e < |enqueuers|
    ensures enqueuers[e := x][e := y] == enqueuers[e := y]
  {
  }

  /** Where the choice by priority leads. */
  function FirstPlace(req: Req, priority: Priority): Enqueuer {
    match priority
    case High => Offering(req, HighQ)
    case Normal => Offering(req, NormalQ)
    case Low => Offering(req, LowQ)
    case Unknown => GivingUp(req, InvalidPriority)
  }

  /** A call that nobody interferes with and whose context is not done: refused if the counter has reached
      maxSize, else put into its destination; with no room there, high and normal requests wait and low ones
      are refused, like unknown priorities. */
  lemma EnqueueAlone(maxSize: nat, s: State, e: nat, req: Req, priority: Priority)
    requires e < |s.enqueuers| && s.enqueuers[e].Outside? && MayEnqueue(s, req)
    ensures var s' := Alone(maxSize, Step(maxSize, s, Enqueue(e, req, priority)), e, 4);
            var where := Destination(maxSize, s.channels, priority);
            if s.queued >= maxSize then s' == s.(rejected := s.rejected + [(req, QueueFull)])
            else if where != [] then
              s' == s.(queued := s.queued + 1, accepted := s.accepted + {req},
                       channels := Append(s.channels, where[0], req))
            else if priority == Low then s' == s.(rejected := s.rejected + [(req, QueueFull)])
            else if priority == Unknown then s' == s.(rejected := s.rejected + [(req, InvalidPriority)])
            else s' == s.(queued := s.queued + 1,
                          enqueuers := s.enqueuers[e := Waiting(req, if priority == High then NormalQ else LowQ)])
  {
    assert s.enqueuers[e := Outside] == s.enqueuers;
    if s.queued >= maxSize {
      OutsideStays(maxSize, Step(maxSize, s, Enqueue(e, req, priority)), e, 4);
    } else {
      var one := s.(queued := s.queued + 1);
      BeginAlone(maxSize, s, e, req, priority);
      match priority
      case High => OfferAlone(maxSize, SetEnqueuer(one, e, Offering(req, HighQ)), e, req, HighQ);
      case Normal => OfferAlone(maxSize, SetEnqueuer(one, e, Offering(req, NormalQ)), e, req, NormalQ);
      case Low => OfferAlone(maxSize, SetEnqueuer(one, e, Offering(req, LowQ)), e, req, LowQ);
      case Unknown =>
        var s' := s.(rejected := s.rejected + [(req, InvalidPriority)]);
        AloneStep(maxSize, SetEnqueuer(one, e, GivingUp(req, InvalidPriority)), e, 2);
        OutsideStays(maxSize, s', e, 1);
    }
  }

  lemma {:induction false} OutsideStays(maxSize: nat, s: State, e: nat, k: nat)
    requires e < |s.enqueuers| && s.enqueuers[e].Outside?
    ensures Alone(maxSize, s, e, k) == s
    decreases k
  {
    if k > 0 {
      OutsideStays(maxSize, s, e, k - 1);
    }
  }

  /** A worker going on for k moves, nothing timing out. */
  function AloneWorker(maxSize: nat, s: State, w: nat, k: nat): State
    decreases k
  {
    if k == 0 then s else AloneWorker(maxSize, Step(maxSize, s, Work(w, true, false)), w, k - 1)
  }

  /** The most urgent channel that holds a request. */
  function MostUrgentOf(c: Channels): Level {
    if c.high != [] then HighQ else if c.normal != [] then NormalQ else LowQ
  }

  lemma WorkerStepAlone(maxSize: nat, s: State, w: nat, k: nat)
    requires k > 0
    ensures AloneWorker(maxSize, s, w, k) == AloneWorker(maxSize, Step(maxSize, s, Work(w, true, false)), w, k - 1)
  {
  }

  /** A worker that has received a request counts it, runs it and answers it. */
  lemma ServeAlone(maxSize: nat, s: State, w: nat, req: Req)
    requires w < |s.workers| && s.workers[w] == Received(req)
    ensures AloneWorker(maxSize, s, w, 3)
            == s.(queued := s.queued - 1, answers := s.answers + [Answer(req, Processed)],
                  workers := s.workers[w := Polling(HighQ)])
  {
    var s1 := Step(maxSize, s, Work(w, true, false));
    var s2 := Step(maxSize, s1, Work(w, true, false));
    var s3 := Step(maxSize, s2, Work(w, true, false));
    WorkerStepAlone(maxSize, s, w, 3);
    WorkerStepAlone(maxSize, s1, w, 2);
    WorkerStepAlone(maxSize, s2, w, 1);
    assert AloneWorker(maxSize, s3, w, 0) == s3;
    assert s3.workers == s.workers[w := Polling(HighQ)];
  }

  /** Every answer says why: processed if the function returned first, a gateway timeout if the context was
      done or the time was up, and shutting down from the drain. */
  lemma AnswersSayWhy(maxSize: nat, s: State, m: Move)
    requires Step(maxSize, s, m).answers != s.answers
    ensures var answers := Step(maxSize, s, m).answers;
            && |answers| == |s.answers| + 1 && answers[..|s.answers|] == s.answers
            && match answers[|s.answers|].status
               case Processed => m.Work? && m.first && s.workers[m.w].Running?
               case GatewayTimeout =>
                 m.Work? && if s.workers[m.w].Taken? then m.done else s.workers[m.w].Running? && !m.first
               case ShuttingDown => (m.Drain? || m.HandToDrain?) && s.phase.Draining?
  {
  }

  /** A worker that nobody interferes with takes the first request of the most urgent channel that holds one,
      and answers it as processed. */
  lemma WorkerAlone(maxSize: nat, s: State, w: nat) returns (k: nat)
    requires w < |s.workers| && s.workers[w] == Polling(HighQ) && s.phase.Open?
    requires s.channels != Channels([], [], [])
    ensures var level := MostUrgentOf(s.channels);
            var q := Contents(s.channels, level);
            && q != []
            && AloneWorker(maxSize, s, w, k)
               == s.(queued := s.queued - 1, channels := Put(s.channels, level, q[1..]),
                     answers := s.answers + [Answer(q[0], Processed)])
  {
    var level := MostUrgentOf(s.channels);
    var q := Contents(s.channels, level);
    var s1 := Step(maxSize, s, Work(w, true, false));
    var taken := SetWorker(s.(channels := Put(s.channels, level, q[1..])), w, Received(q[0]));
    ServeAlone(maxSize, taken, w, q[0]);
    assert s.workers[w := Polling(HighQ)] == s.workers == taken.workers[w := Polling(HighQ)];
    if level.HighQ? {
      k := 4;
      WorkerStepAlone(maxSize, s, w, 4);
    } else {
      var s2 := Step(maxSize, s1, Work(w, true, false));
      if level.NormalQ? {
        k := 5;
        WorkerStepAlone(maxSize, s, w, 5);
        WorkerStepAlone(maxSize, s1, w, 4);
        assert s2 == taken;
      } else {
        k := 6;
        WorkerStepAlone(maxSize, s, w, 6);
        WorkerStepAlone(maxSize, s1, w, 5);
        WorkerStepAlone(maxSize, s2, w, 4);
        assert Step(maxSize, s2, Work(w, true, false)) == taken;
      }
    }
  }

  /** At each select with the context, of an enqueuer or a worker: with only one case ready that one is taken,
      and with both ready either can be. */
  lemma SelectsAreFair(maxSize: nat, s: State, e: nat, w: nat, first: bool, done: bool)
    ensures e < |s.enqueuers| && CanOffer(s.enqueuers[e]) && !Full(maxSize, s.channels, s.enqueuers[e].level) ==>
              var req, level := s.enqueuers[e].req, s.enqueuers[e].level;
              Step(maxSize, s, Advance(e, first, done))
              == if done && !first then SetEnqueuer(s, e, GivingUp(req, Timeout)) else Send(s, e, req, level)
    ensures w < |s.workers| && s.workers[w].Polling? && !s.phase.Open? ==>
              var q := Contents(s.channels, s.workers[w].level);
              Step(maxSize, s, Work(w, first, done)).workers
              == s.workers[w := if q == [] || first then Exited else Received(q[0])]
  {
  }

  // ---- Shutdown ----

  lemma {:induction false} RunJoins(maxSize: nat, s: State, a: seq<Move>, b: seq<Move>)
    ensures Run(maxSize, s, a + b) == Run(maxSize, Run(maxSize, s, a), b)
  {
    if b == [] {
      assert a + b == a;
    } else {
      assert (a + b)[..|a + b| - 1] == a + b[..|b| - 1];
      RunJoins(maxSize, s, a, b[..|b| - 1]);
    }
  }

  lemma MoveFirst(maxSize: nat, s: State, m: Move, rest: seq<Move>)
    ensures Run(maxSize, s, [m] + rest) == Run(maxSize, Step(maxSize, s, m), rest)
  {
    RunJoins(maxSize, s, [m], rest);
    assert [m][..0] == [];
  }

  /** How far a worker is from its exit once the queue is being shut down. */
  function Distance(pc: Worker): nat {
    match pc
    case Exited => 0
    case Polling(_) => 1
    case Running(_) => 2
    case Taken(_) => 3
    case Received(_) => 4
  }

  function Distances(workers: seq<Worker>): nat {
    if workers == [] then 0 else Distances(workers[..|workers| - 1]) + Distance(workers[|workers| - 1])
  }

  lemma {:induction false} DistancesUpdate(workers: seq<Worker>, w: nat, pc: Worker)
    requires w < |workers|
    ensures Distances(workers[w := pc]) == Distances(workers) - Distance(workers[w]) + Distance(pc)
  {
    var last := |workers| - 1;
    if w == last {
      assert workers[w := pc][..last] == workers[..last];
    } else {
      assert workers[w := pc][..last] == workers[..last][w := pc];
      DistancesUpdate(workers[..last], w, pc);
    }
  }

  /** From any moment at which the queue is being shut down, the workers can all finish and exit. */
  lemma {:induction false} WorkersExit(maxSize: nat, s: State) returns (schedule: seq<Move>)
    requires s.phase.Joining?
    ensures var s' := Run(maxSize, s, schedule); s'.phase.Joining? && AllExited(s'.workers)
    decreases Distances(s.workers)
  {
    if w: nat :| w < |s.workers| && !s.workers[w].Exited? {
      var m := Work(w, true, false);
      var s1 := Step(maxSize, s, m);
      DistancesUpdate(s.workers, w, s1.workers[w]);
      assert s1.workers == s.workers[w := s1.workers[w]];
      var rest := WorkersExit(maxSize, s1);
      schedule := [m] + rest;
      MoveFirst(maxSize, s, m, rest);
    } else {
      schedule := [];
    }
  }

  /** And the drain can empty the channels and finish. */
  lemma {:induction false} DrainFinishes(maxSize: nat, s: State) returns (schedule: seq<Move>)
    requires s.phase.Draining?
    ensures Run(maxSize, s, schedule).phase.Closed?
    decreases |s.channels.high| + |s.channels.normal| + |s.channels.low|
  {
    var m := Drain(MostUrgentOf(s.channels));
    if s.channels == Channels([], [], []) {
      schedule := [m];
      MoveFirst(maxSize, s, m, []);
      assert [m] + [] == [m];
    } else {
      var rest := DrainFinishes(maxSize, Step(maxSize, s, m));
      schedule := [m] + rest;
      MoveFirst(maxSize, s, m, rest);
    }
  }

  /** Shutdown never has to get stuck: after every run there is a way on to where it returns. */
  lemma ShutdownCanFinish(maxSize: nat, enqueuers: nat, workers: nat, before: seq<Move>)
    requires Run(maxSize, Start(enqueuers, workers), before).phase.Open?
    ensures exists schedule :: Run(maxSize, Start(enqueuers, workers), before + schedule).phase.Closed?
  {
    var start := Start(enqueuers, workers);
    var s := Run(maxSize, start, before);
    var s1 := Step(maxSize, s, Shutdown);
    var exits := WorkersExit(maxSize, s1);
    var s2 := Run(maxSize, s1, exits);
    var s3 := Step(maxSize, s2, Shutdown);
    var drains := DrainFinishes(maxSize, s3);
    MoveFirst(maxSize, s2, Shutdown, drains);
    RunJoins(maxSize, s1, exits, [Shutdown] + drains);
    MoveFirst(maxSize, s, Shutdown, exits + ([Shutdown] + drains));
    RunJoins(maxSize, start, before, [Shutdown] + (exits + ([Shutdown] + drains)));
  }
}
