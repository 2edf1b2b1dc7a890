/** The two-level limiter under arbitrary interleaving: any number of callers run AllowN on the tenants'
    buckets and the global one, each bucket being the lock-free one of `BucketMachine`, and refills of any
    bucket go on beside them. One move is one move of one caller in one bucket. The tenants' buckets are
    given; `TenantMap` says how they come to be. */
module ConcurrentLimiter {
  import opened Arith
  import opened BucketMachine

  /** Where a caller is: asking the tenant's bucket, then the global one, then perhaps giving back. */
  datatype Phase =
    | Outside
    | AskTenant(tenant: nat, n: nat)
    | AskGlobal(tenant: nat, n: nat)
    | GiveBack(tenant: nat, n: nat)
    | RefillTenant(tenant: nat)
    | RefillGlobal

  datatype Limits2 = Limits2(tenants: seq<Limits>, global: Limits)

  /** `admitted` is what each tenant has been admitted so far. */
  datatype Limiter = Limiter(tenants: seq<State>, global: State, callers: seq<Phase>, admitted: seq<int>)

  datatype Deed = AllowN(tenant: nat, n: nat) | StartRefillTenant(tenant: nat) | StartRefillGlobal | GoOn(now: int)

  datatype Turn = Turn(caller: nat, deed: Deed)

  function InTenant(c: Limits2, l: Limiter, i: nat, t: nat, a: Action, phase: Phase): Limiter
    requires i < |l.tenants| && i < |c.tenants| && t < |l.callers|
  {
    l.(tenants := l.tenants[i := Step(c.tenants[i], l.tenants[i], Move(t, a))], callers := l.callers[t := phase])
  }

  function InGlobal(c: Limits2, l: Limiter, t: nat, a: Action, phase: Phase): Limiter
    requires t < |l.callers|
  {
    l.(global := Step(c.global, l.global, Move(t, a)), callers := l.callers[t := phase])
  }

  /** The caller's call on a bucket has returned. */
  predicate Returns(s: State, t: nat) {
    t < |s.threads| && s.threads[t].Idle?
  }

  predicate JustTook(s: State) {
    s.log != [] && s.log[|s.log| - 1].Consumed?
  }

  /** The phase concerns no other tenant than this one. */
  predicate About(p: Phase, i: nat) {
    p.Outside? || p.RefillGlobal? || p.tenant == i
  }

  predicate Fit(c: Limits2, l: Limiter) {
    && |c.tenants| == |l.tenants| == |l.admitted|
    && forall t :: 0 <= t < |l.callers| ==>
         l.callers[t].Outside? || l.callers[t].RefillGlobal? || l.callers[t].tenant < |l.tenants|
  }

  function Next(c: Limits2, l: Limiter, m: Turn): (l': Limiter)
    requires Fit(c, l)
    ensures Fit(c, l')
  {
    if m.caller >= |l.callers| then l
    else if l.callers[m.caller].Outside? then
      match m.deed
      case AllowN(i, n) =>
        if i < |l.tenants| then InTenant(c, l, i, m.caller, CallTryConsume(n), AskTenant(i, n)) else l
      case StartRefillTenant(i) =>
        if i < |l.tenants| then InTenant(c, l, i, m.caller, CallRefill, RefillTenant(i)) else l
      case StartRefillGlobal => InGlobal(c, l, m.caller, CallRefill, RefillGlobal)
      case GoOn(_) => l
    else if m.deed.GoOn? then Goes(c, l, m.caller, m.deed.now)
    else l
  }

  /** The caller moves on in the bucket it is in; if its call there returns, it goes on to the next. */
  function Goes(c: Limits2, l: Limiter, t: nat, now: int): (l': Limiter)
    requires Fit(c, l) && t < |l.callers|
    ensures Fit(c, l')
  {
    match l.callers[t]
    case Outside => l
    case AskTenant(i, n) =>
      var s := Step(c.tenants[i], l.tenants[i], Move(t, Continue(now)));
      var l' := l.(tenants := l.tenants[i := s]);
      if !Returns(s, t) then l'
      else if JustTook(s) then InGlobal(c, l', t, CallTryConsume(n), AskGlobal(i, n))
      else l'.(callers := l.callers[t := Outside])
    case AskGlobal(i, n) =>
      var s := Step(c.global, l.global, Move(t, Continue(now)));
      var l' := l.(global := s);
      if !Returns(s, t) then l'
      else if JustTook(s) then l'.(callers := l.callers[t := Outside], admitted := l.admitted[i := l.admitted[i] + n])
      else InTenant(c, l', i, t, CallReturn(n), GiveBack(i, n))
    case GiveBack(i, n) =>
      var s := Step(c.tenants[i], l.tenants[i], Move(t, Continue(now)));
      l.(tenants := l.tenants[i := s], callers := if Returns(s, t) then l.callers[t := Outside] else l.callers)
    case RefillTenant(i) =>
      var s := Step(c.tenants[i], l.tenants[i], Move(t, Continue(now)));
      l.(tenants := l.tenants[i := s], callers := if Returns(s, t) then l.callers[t := Outside] else l.callers)
    case RefillGlobal =>
      var s := Step(c.global, l.global, Move(t, Continue(now)));
      l.(global := s, callers := if Returns(s, t) then l.callers[t := Outside] else l.callers)
  }

  // ---- The accounts ----

  function Total(admitted: seq<int>): int {
    if admitted == [] then 0 else Total(admitted[..|admitted| - 1]) + admitted[|admitted| - 1]
  }

  /** What a caller has taken from a tenant's bucket and neither used nor given back yet. */
  function Held(p: Phase, i: nat): nat {
    if (p.AskGlobal? || p.GiveBack?) && p.tenant == i then p.n else 0
  }

  function InHands(callers: seq<Phase>, i: nat): nat {
    if callers == [] then 0 else InHands(callers[..|callers| - 1], i) + Held(callers[|callers| - 1], i)
  }

  /** What a caller in this phase is doing in tenant i's bucket, and in the global one. */
  function TenantCall(p: Phase, i: nat): Call {
    match p
    case AskTenant(x, n) => if x == i then Consuming(n) else NoCall
    case GiveBack(x, n) => if x == i then Returning(n) else NoCall
    case RefillTenant(x) => if x == i then Refilling else NoCall
    case _ => NoCall
  }

  function GlobalCall(p: Phase): Call {
    match p
    case AskGlobal(_, n) => Consuming(n)
    case RefillGlobal => Refilling
    case _ => NoCall
  }

  ghost predicate TenantInv(c: Limits2, l0: Limiter, l: Limiter, i: nat)
    requires i < |c.tenants| && i < |l0.tenants| && i < |l.tenants| && i < |l.admitted|
  {
    && Inv(c.tenants[i], l0.tenants[i], l.tenants[i])
    && |l.tenants[i].threads| == |l.callers|
    && (forall t :: 0 <= t < |l.callers| ==> CallOf(l.tenants[i].threads[t]) == TenantCall(l.callers[t], i))
    && Net(l.tenants[i].log) == l.admitted[i] + InHands(l.callers, i)
  }

  ghost predicate GlobalInv(c: Limits2, l0: Limiter, l: Limiter) {
    && Inv(c.global, l0.global, l.global)
    && |l.global.threads| == |l.callers|
    && (forall t :: 0 <= t < |l.callers| ==> CallOf(l.global.threads[t]) == GlobalCall(l.callers[t]))
    && Net(l.global.log) == Total(l.admitted)
  }

  ghost predicate Accounts(c: Limits2, l0: Limiter, l: Limiter) {
    && Fit(c, l) && |l0.tenants| == |l.tenants|
    && GlobalInv(c, l0, l)
    && forall i :: 0 <= i < |l.tenants| ==> TenantInv(c, l0, l, i)
  }

  ghost predicate Begins(c: Limits2, l: Limiter) {
    && Fit(c, l)
    && Initial(c.global, l.global) && |l.global.threads| == |l.callers|
    && (forall i :: 0 <= i < |l.tenants| ==>
          Initial(c.tenants[i], l.tenants[i]) && |l.tenants[i].threads| == |l.callers|)
    && (forall t :: 0 <= t < |l.callers| ==> l.callers[t].Outside?)
    && forall i :: 0 <= i < |l.admitted| ==> l.admitted[i] == 0
  }

  // ---- One bucket ----

  /** A caller that goes on in a bucket, and what its log gains when the call returns. */
  lemma BucketGoesOn(c: Limits, s0: State, s: State, t: nat, now: int)
    requires Inv(c, s0, s) && t < |s.threads| && !s.threads[t].Idle?
    ensures var s', call := Step(c, s, Move(t, Continue(now))), CallOf(s.threads[t]);
            && Inv(c, s0, s') && |s'.threads| == |s.threads|
            && s'.threads == s.threads[t := s'.threads[t]]
            && (s'.threads[t].Idle? || CallOf(s'.threads[t]) == call)
            && Net(s'.log) == Net(s.log)
                 + (if !s'.threads[t].Idle? then 0
                    else if call.Consuming? && JustTook(s') then call.n
                    else if call.Returning? then 0 - call.n else 0)
  {
    var s' := Step(c, s, Move(t, Continue(now)));
    StepKeepsInv(c, s0, s, Move(t, Continue(now)));
    StepChanges(c, s, Move(t, Continue(now)));
    CallsTakeEffectOnce(c, s, t, now);
    if s'.log != s.log {
      assert s'.log[..|s'.log| - 1] == s.log;
    }
  }

  /** A caller that starts a call on a bucket where it is idle changes nothing but its own place. */
  lemma BucketBegins(c: Limits, s0: State, s: State, t: nat, a: Action)
    requires Inv(c, s0, s) && t < |s.threads| && s.threads[t].Idle? && !a.Continue?
    ensures var s' := Step(c, s, Move(t, a));
            && Inv(c, s0, s') && s'.log == s.log && |s'.threads| == |s.threads|
            && s'.threads == s.threads[t := s'.threads[t]]
            && CallOf(s'.threads[t]) == (match a
                                         case CallTryConsume(n) => Consuming(n)
                                         case CallReturn(n) => Returning(n)
                                         case _ => Refilling)
  {
    StepKeepsInv(c, s0, s, Move(t, a));
  }

  // ---- All buckets ----

  lemma {:induction false} InHandsUpdate(callers: seq<Phase>, t: nat, p: Phase, i: nat)
    requires t < |callers|
    ensures InHands(callers[t := p], i) == InHands(callers, i) - Held(callers[t], i) + Held(p, i)
  {
    var last := |callers| - 1;
    if t == last {
      assert callers[t := p][..last] == callers[..last];
    } else {
      assert callers[t := p][..last] == callers[..last][t := p];
      InHandsUpdate(callers[..last], t, p, i);
    }
  }

  lemma {:induction false} TotalUpdate(admitted: seq<int>, i: nat, n: int)
    requires i < |admitted|
    ensures Total(admitted[i := n]) == Total(admitted) - admitted[i] + n
  {
    var last := |admitted| - 1;
    if i == last {
      assert admitted[i := n][..last] == admitted[..last];
    } else {
      assert admitted[i := n][..last] == admitted[..last][i := n];
      TotalUpdate(admitted[..last], i, n);
    }
  }

  /** A bucket's part in a move of caller t: its own place there fits its new phase, and the bucket's net
      consumption changes by `net`. */
  ghost predicate Part(c: Limits, s0: State, s: State, s': State, t: nat, call: Call, net: int) {
    && Inv(c, s0, s') && |s'.threads| == |s.threads| && t < |s.threads|
    && s'.threads == s.threads[t := s'.threads[t]] && CallOf(s'.threads[t]) == call
    && Net(s'.log) == Net(s.log) + net
  }

  lemma TenantKeeps(c: Limits2, l0: Limiter, l: Limiter, l': Limiter, t: nat, p: Phase, j: nat)
    requires Fit(c, l) && Fit(c, l') && |l0.tenants| == |l.tenants| == |l'.tenants| && j < |l.tenants|
    requires TenantInv(c, l0, l, j) && t < |l.callers| && l'.callers == l.callers[t := p]
    requires Part(c.tenants[j], l0.tenants[j], l.tenants[j], l'.tenants[j], t, TenantCall(p, j),
                  l'.admitted[j] - l.admitted[j] + Held(p, j) - Held(l.callers[t], j))
    ensures TenantInv(c, l0, l', j)
  {
    InHandsUpdate(l.callers, t, p, j);
  }

  /** One move of caller t, which concerns tenant i: enough to look at that tenant's bucket and the global
      one. */
  lemma MoveKeepsAccounts(c: Limits2, l0: Limiter, l: Limiter, l': Limiter, t: nat, p: Phase, i: nat)
    requires Accounts(c, l0, l) && t < |l.callers| && i < |l.tenants|
    requires About(l.callers[t], i) && About(p, i)
    requires |l'.tenants| == |l.tenants| && |l'.admitted| == |l.admitted| && l'.callers == l.callers[t := p]
    requires l'.tenants == l.tenants[i := l'.tenants[i]] && l'.admitted == l.admitted[i := l'.admitted[i]]
    requires Part(c.tenants[i], l0.tenants[i], l.tenants[i], l'.tenants[i], t, TenantCall(p, i),
                  l'.admitted[i] - l.admitted[i] + Held(p, i) - Held(l.callers[t], i))
    requires Part(c.global, l0.global, l.global, l'.global, t, GlobalCall(p), l'.admitted[i] - l.admitted[i])
    ensures Accounts(c, l0, l')
  {
    TotalUpdate(l.admitted, i, l'.admitted[i]);
    forall j | 0 <= j < |l'.tenants|
      ensures TenantInv(c, l0, l', j)
    {
      assert TenantInv(c, l0, l, j);
      TenantKeeps(c, l0, l, l', t, p, j);
    }
  }

  lemma AskTenantKeeps(c: Limits2, l0: Limiter, l: Limiter, t: nat, now: int)
    requires Accounts(c, l0, l) && t < |l.callers| && l.callers[t].AskTenant?
    ensures Accounts(c, l0, Goes(c, l, t, now))
  {
    var AskTenant(i, n) := l.callers[t];
    var l' := Goes(c, l, t, now);
    assert TenantInv(c, l0, l, i);
    BucketGoesOn(c.tenants[i], l0.tenants[i], l.tenants[i], t, now);
    if l'.callers[t].AskGlobal? {
      BucketBegins(c.global, l0.global, l.global, t, CallTryConsume(n));
    }
    MoveKeepsAccounts(c, l0, l, l', t, l'.callers[t], i);
  }

  lemma AskGlobalKeeps(c: Limits2, l0: Limiter, l: Limiter, t: nat, now: int)
    requires Accounts(c, l0, l) && t < |l.callers| && l.callers[t].AskGlobal?
    ensures Accounts(c, l0, Goes(c, l, t, now))
  {
    var AskGlobal(i, n) := l.callers[t];
    var l' := Goes(c, l, t, now);
    assert TenantInv(c, l0, l, i);
    BucketGoesOn(c.global, l0.global, l.global, t, now);
    if l'.callers[t].GiveBack? {
      BucketBegins(c.tenants[i], l0.tenants[i], l.tenants[i], t, CallReturn(n));
    }
    MoveKeepsAccounts(c, l0, l, l', t, l'.callers[t], i);
  }

  lemma OtherTenantKeeps(c: Limits2, l0: Limiter, l: Limiter, t: nat, now: int)
    requires Accounts(c, l0, l) && t < |l.callers| && (l.callers[t].GiveBack? || l.callers[t].RefillTenant?)
    ensures Accounts(c, l0, Goes(c, l, t, now))
  {
    var i := l.callers[t].tenant;
    var l' := Goes(c, l, t, now);
    assert TenantInv(c, l0, l, i);
    BucketGoesOn(c.tenants[i], l0.tenants[i], l.tenants[i], t, now);
    MoveKeepsAccounts(c, l0, l, l', t, l'.callers[t], i);
  }

  /** A move in the global bucket only, of a caller that is not in a request. */
  lemma GlobalKeeps(c: Limits2, l0: Limiter, l: Limiter, l': Limiter, t: nat, p: Phase)
    requires Accounts(c, l0, l) && t < |l.callers|
    requires (l.callers[t].Outside? || l.callers[t].RefillGlobal?) && (p.Outside? || p.RefillGlobal?)
    requires l'.callers == l.callers[t := p] && l'.tenants == l.tenants && l'.admitted == l.admitted
    requires Part(c.global, l0.global, l.global, l'.global, t, GlobalCall(p), 0)
    ensures Accounts(c, l0, l')
  {
    forall j | 0 <= j < |l'.tenants|
      ensures TenantInv(c, l0, l', j)
    {
      assert TenantInv(c, l0, l, j);
      TenantKeeps(c, l0, l, l', t, p, j);
    }
  }

  /** A caller that is outside starts a call on a tenant's bucket. */
  lemma TenantCallKeeps(c: Limits2, l0: Limiter, l: Limiter, t: nat, i: nat, a: Action, p: Phase)
    requires Accounts(c, l0, l) && t < |l.callers| && l.callers[t].Outside? && i < |l.tenants|
    requires (a.CallTryConsume? && p == AskTenant(i, a.n)) || (a.CallRefill? && p == RefillTenant(i))
    ensures Accounts(c, l0, InTenant(c, l, i, t, a, p))
  {
    assert TenantInv(c, l0, l, i);
    BucketBegins(c.tenants[i], l0.tenants[i], l.tenants[i], t, a);
    MoveKeepsAccounts(c, l0, l, InTenant(c, l, i, t, a, p), t, p, i);
  }

  lemma CallKeeps(c: Limits2, l0: Limiter, l: Limiter, m: Turn)
    requires Accounts(c, l0, l) && m.caller < |l.callers| && l.callers[m.caller].Outside?
    ensures Accounts(c, l0, Next(c, l, m))
  {
    match m.deed
    case AllowN(i, n) =>
      if i < |l.tenants| {
        TenantCallKeeps(c, l0, l, m.caller, i, CallTryConsume(n), AskTenant(i, n));
      }
    case StartRefillTenant(i) =>
      if i < |l.tenants| {
        TenantCallKeeps(c, l0, l, m.caller, i, CallRefill, RefillTenant(i));
      }
    case StartRefillGlobal =>
      BucketBegins(c.global, l0.global, l.global, m.caller, CallRefill);
      GlobalKeeps(c, l0, l, Next(c, l, m), m.caller, RefillGlobal);
    case GoOn(_) =>
  }

  lemma NextKeepsAccounts(c: Limits2, l0: Limiter, l: Limiter, m: Turn)
    requires Accounts(c, l0, l)
    ensures Accounts(c, l0, Next(c, l, m))
  {
    if m.caller < |l.callers| {
      var t := m.caller;
      if l.callers[t].Outside? {
        CallKeeps(c, l0, l, m);
      } else if m.deed.GoOn? {
        GoesKeeps(c, l0, l, t, m.deed.now);
      }
    }
  }

  lemma GoesKeeps(c: Limits2, l0: Limiter, l: Limiter, t: nat, now: int)
    requires Accounts(c, l0, l) && t < |l.callers|
    ensures Accounts(c, l0, Goes(c, l, t, now))
  {
    match l.callers[t]
    case Outside =>
    case AskTenant(_, _) => AskTenantKeeps(c, l0, l, t, now);
    case AskGlobal(_, _) => AskGlobalKeeps(c, l0, l, t, now);
    case GiveBack(_, _) => OtherTenantKeeps(c, l0, l, t, now);
    case RefillTenant(_) => OtherTenantKeeps(c, l0, l, t, now);
    case RefillGlobal =>
      var l' := Goes(c, l, t, now);
      BucketGoesOn(c.global, l0.global, l.global, t, now);
      GlobalKeeps(c, l0, l, l', t, l'.callers[t]);
  }

  // ---- Runs ----

  function After(c: Limits2, l0: Limiter, turns: seq<Turn>): (l: Limiter)
    requires Fit(c, l0)
    ensures Fit(c, l)
  {
    if turns == [] then l0 else Next(c, After(c, l0, turns[..|turns| - 1]), turns[|turns| - 1])
  }

  lemma {:induction false} AllIdle(callers: seq<Phase>, i: nat)
    requires forall t :: 0 <= t < |callers| ==> callers[t].Outside?
    ensures InHands(callers, i) == 0
  {
    if callers != [] {
      AllIdle(callers[..|callers| - 1], i);
    }
  }

  lemma {:induction false} NoneAdmitted(admitted: seq<int>)
    requires forall i :: 0 <= i < |admitted| ==> admitted[i] == 0
    ensures Total(admitted) == 0
  {
    if admitted != [] {
      NoneAdmitted(admitted[..|admitted| - 1]);
    }
  }

  lemma {:induction false} RunKeepsAccounts(c: Limits2, l0: Limiter, turns: seq<Turn>)
    requires Begins(c, l0)
    ensures Accounts(c, l0, After(c, l0, turns))
  {
    if turns == [] {
      NoneAdmitted(l0.admitted);
      InFlightIdle(l0.global.threads);
      forall i | 0 <= i < |l0.tenants|
        ensures TenantInv(c, l0, l0, i)
      {
        InFlightIdle(l0.tenants[i].threads);
        AllIdle(l0.callers, i);
      }
    } else {
      RunKeepsAccounts(c, l0, turns[..|turns| - 1]);
      NextKeepsAccounts(c, l0, After(c, l0, turns[..|turns| - 1]), turns[|turns| - 1]);
    }
  }

  /** The initial tokens plus the refill of the elapsed time. */
  function Budget(c: Limits, s0: State, s: State): int {
    s0.tokens + (s.lastRefill - s0.lastRefill) * c.refillRate / SECOND
  }

  ghost predicate WithinBudget(c: Limits, s0: State, s: State, taken: int) {
    taken + s.tokens + InFlight(s.threads) <= Budget(c, s0, s)
  }

  lemma NetWithinBudget(c: Limits, s0: State, s: State, taken: int)
    requires Inv(c, s0, s) && taken == Net(s.log)
    ensures WithinBudget(c, s0, s, taken)
  {
    GrantedBounds(c, s.log, s0.lastRefill, s.lastRefill);
  }

  /** Two-level conservation in every interleaving: what all tenants were admitted is exactly what was
      taken from the global bucket, and with the tokens left there and the credit in flight it is at most
      the initial tokens plus the refill of the elapsed time. */
  lemma ConcurrentAdmissionsAreConserved(c: Limits2, l0: Limiter, turns: seq<Turn>)
    requires Begins(c, l0)
    ensures var l := After(c, l0, turns);
            && Total(l.admitted) == Net(l.global.log)
            && WithinBudget(c.global, l0.global, l.global, Total(l.admitted))
  {
    var l := After(c, l0, turns);
    RunKeepsAccounts(c, l0, turns);
    NetWithinBudget(c.global, l0.global, l.global, Total(l.admitted));
  }

  /** And for each tenant: what its bucket gave up, less what came back, is exactly what the tenant was
      admitted plus what callers hold between the two levels or are giving back. */
  lemma TenantsAreConserved(c: Limits2, l0: Limiter, turns: seq<Turn>, i: nat)
    requires Begins(c, l0) && i < |l0.tenants|
    ensures var l := After(c, l0, turns);
            && |l.tenants| == |c.tenants| == |l.admitted| == |l0.tenants|
            && Net(l.tenants[i].log) == l.admitted[i] + InHands(l.callers, i)
            && WithinBudget(c.tenants[i], l0.tenants[i], l.tenants[i], l.admitted[i] + InHands(l.callers, i))
  {
    var l := After(c, l0, turns);
    RunKeepsAccounts(c, l0, turns);
    assert TenantInv(c, l0, l, i);
    NetWithinBudget(c.tenants[i], l0.tenants[i], l.tenants[i], l.admitted[i] + InHands(l.callers, i));
  }

  /** So once all callers are outside, refused requests have cost nobody anything: every tenant has been
      charged what it was admitted, and the global bucket the sum of that. */
  lemma RefusalsCostNothing(c: Limits2, l0: Limiter, turns: seq<Turn>, i: nat)
    requires Begins(c, l0) && i < |l0.tenants|
    requires forall p :: p in After(c, l0, turns).callers ==> p.Outside?
    ensures var l := After(c, l0, turns);
            && |l.tenants| == |l.admitted| == |l0.tenants|
            && Net(l.tenants[i].log) == l.admitted[i] && Net(l.global.log) == Total(l.admitted)
  {
    var l := After(c, l0, turns);
    RunKeepsAccounts(c, l0, turns);
    assert TenantInv(c, l0, l, i);
    AllIdle(l.callers, i);
  }

  // ---- One request alone ----

  /** A caller going on alone for k moves, all its clock readings being `now`. */
  function GoesOn(c: Limits2, l: Limiter, t: nat, now: int, k: nat): (l': Limiter)
    requires Fit(c, l)
    ensures Fit(c, l')
    decreases k
  {
    if k == 0 then l else GoesOn(c, Next(c, l, Turn(t, GoOn(now))), t, now, k - 1)
  }

  lemma {:induction false} GoesOnFurther(c: Limits2, l: Limiter, t: nat, now: int, j: nat, k: nat)
    requires Fit(c, l)
    ensures GoesOn(c, l, t, now, j + k) == GoesOn(c, GoesOn(c, l, t, now, j), t, now, k)
    decreases j
  {
    if j > 0 {
      GoesOnFurther(c, Next(c, l, Turn(t, GoOn(now))), t, now, j - 1, k);
    }
  }

  lemma {:induction false} OutsideStays(c: Limits2, l: Limiter, t: nat, now: int, k: nat)
    requires Fit(c, l) && t < |l.callers| && l.callers[t].Outside?
    ensures GoesOn(c, l, t, now, k) == l
    decreases k
  {
    if k > 0 {
      OutsideStays(c, l, t, now, k - 1);
    }
  }

  /** The caller is in the middle of a call on this bucket, and alone it returns within k moves. */
  predicate ReturnsIn(c: Limits, s: State, t: nat, now: int, k: nat) {
    t < |s.threads| && !s.threads[t].Idle? && Returns(Alone(c, s, t, now, k), t)
  }

  lemma BucketStep(c: Limits, s: State, t: nat, now: int, k: nat)
    requires ReturnsIn(c, s, t, now, k)
    ensures var s' := Step(c, s, Move(t, Continue(now)));
            && k > 0 && t < |s'.threads| && Alone(c, s, t, now, k) == Alone(c, s', t, now, k - 1)
            && if s'.threads[t].Idle? then Alone(c, s, t, now, k) == s' else ReturnsIn(c, s', t, now, k - 1)
  {
    var s' := Step(c, s, Move(t, Continue(now)));
    assert k > 0;
    assert |s'.threads| == |s.threads|;
    if s'.threads[t].Idle? {
      SoloIdle(c, s', t, now, k - 1);
    }
  }

  lemma {:induction false} TenantPart(c: Limits2, l: Limiter, t: nat, now: int, k: nat) returns (j: nat)
    requires Fit(c, l) && t < |l.callers| && l.callers[t].AskTenant?
    requires var i := l.callers[t].tenant; ReturnsIn(c.tenants[i], l.tenants[i], t, now, k)
    ensures j <= k
    ensures var i, n := l.callers[t].tenant, l.callers[t].n;
            var s := Alone(c.tenants[i], l.tenants[i], t, now, k);
            var l' := l.(tenants := l.tenants[i := s]);
            GoesOn(c, l, t, now, j) == if JustTook(s) then InGlobal(c, l', t, CallTryConsume(n), AskGlobal(i, n))
                                       else l'.(callers := l.callers[t := Outside])
    decreases k
  {
    var i := l.callers[t].tenant;
    var l1 := Next(c, l, Turn(t, GoOn(now)));
    BucketStep(c.tenants[i], l.tenants[i], t, now, k);
    if l1.callers[t].AskTenant? {
      j := TenantPart(c, l1, t, now, k - 1);
      j := j + 1;
    } else {
      j := 1;
      assert GoesOn(c, l, t, now, j) == GoesOn(c, l1, t, now, 0);
    }
  }

  lemma {:induction false} GlobalPart(c: Limits2, l: Limiter, t: nat, now: int, k: nat) returns (j: nat)
    requires Fit(c, l) && t < |l.callers| && l.callers[t].AskGlobal? && ReturnsIn(c.global, l.global, t, now, k)
    ensures j <= k
    ensures var i, n := l.callers[t].tenant, l.callers[t].n;
            var s := Alone(c.global, l.global, t, now, k);
            var l' := l.(global := s);
            GoesOn(c, l, t, now, j)
            == if JustTook(s)
               then l'.(callers := l.callers[t := Outside], admitted := l.admitted[i := l.admitted[i] + n])
               else InTenant(c, l', i, t, CallReturn(n), GiveBack(i, n))
    decreases k
  {
    var l1 := Next(c, l, Turn(t, GoOn(now)));
    BucketStep(c.global, l.global, t, now, k);
    if l1.callers[t].AskGlobal? {
      j := GlobalPart(c, l1, t, now, k - 1);
      j := j + 1;
    } else {
      j := 1;
      assert GoesOn(c, l, t, now, j) == GoesOn(c, l1, t, now, 0);
    }
  }

  lemma {:induction false} GiveBackPart(c: Limits2, l: Limiter, t: nat, now: int, k: nat) returns (j: nat)
    requires Fit(c, l) && t < |l.callers| && l.callers[t].GiveBack?
    requires var i := l.callers[t].tenant; ReturnsIn(c.tenants[i], l.tenants[i], t, now, k)
    ensures j <= k
    ensures var i := l.callers[t].tenant;
            GoesOn(c, l, t, now, j)
            == l.(tenants := l.tenants[i := Alone(c.tenants[i], l.tenants[i], t, now, k)],
                  callers := l.callers[t := Outside])
    decreases k
  {
    var i := l.callers[t].tenant;
    var l1 := Next(c, l, Turn(t, GoOn(now)));
    BucketStep(c.tenants[i], l.tenants[i], t, now, k);
    if l1.callers[t].GiveBack? {
      j := GiveBackPart(c, l1, t, now, k - 1);
      j := j + 1;
    } else {
      j := 1;
      assert GoesOn(c, l, t, now, j) == GoesOn(c, l1, t, now, 0);
    }
  }

  /** The bucket can give n tokens now, if need be after a refill. */
  ghost predicate CanGive(c: Limits, s: State, n: nat, now: int) {
    n <= s.tokens || n <= HoldsAt(c, s, now)
  }

  /** A caller may start a request for this tenant: it is outside and idle in both buckets. */
  ghost predicate MayAsk(c: Limits2, l: Limiter, t: nat, i: nat) {
    && Fit(c, l) && t < |l.callers| && l.callers[t].Outside? && i < |l.tenants|
    && t < |l.tenants[i].threads| && l.tenants[i].threads[t].Idle?
    && t < |l.global.threads| && l.global.threads[t].Idle?
    && 0 <= l.tenants[i].tokens <= c.tenants[i].maxTokens && 0 <= l.global.tokens <= c.global.maxTokens
  }

  /** What a request on its own leaves: n tokens less in both buckets if both can give them; otherwise at
      most refills, what was taken from the tenant's bucket being given back. */
  ghost predicate Answered(c: Limits2, l: Limiter, l': Limiter, t: nat, i: nat, n: nat, now: int)
    requires MayAsk(c, l, t, i) && Fit(c, l') && i < |l'.tenants|
  {
    var mine, all := CanGive(c.tenants[i], l.tenants[i], n, now), CanGive(c.global, l.global, n, now);
    && l'.callers == l.callers
    && l'.admitted == (if mine && all then l.admitted[i := l.admitted[i] + n] else l.admitted)
    && l'.global.tokens == (if !mine then l.global.tokens
                            else if all then Ready(c.global, l.global, n, now) - n
                            else Ready(c.global, l.global, n, now))
    && l'.tenants[i].tokens == Ready(c.tenants[i], l.tenants[i], n, now) - if mine && all then n else 0
  }

  /** What a bucket holds when it is asked for n tokens: it is refilled only if it is short. */
  ghost function Ready(c: Limits, s: State, n: nat, now: int): int {
    if n <= s.tokens then s.tokens else HoldsAt(c, s, now)
  }

  /** A TryConsume alone, by what the bucket can give. */
  lemma CallVerdict(c: Limits, s: State, t: nat, n: nat, now: int)
    requires t < |s.threads| && s.threads[t].Idle? && 0 <= s.tokens <= c.maxTokens
    ensures var s1 := Step(c, s, Move(t, CallTryConsume(n)));
            var s' := Alone(c, s1, t, now, 9);
            && ReturnsIn(c, s1, t, now, 9) && s'.threads == s.threads
            && (JustTook(s') <==> CanGive(c, s, n, now))
            && s'.tokens == Ready(c, s, n, now) - if CanGive(c, s, n, now) then n else 0
  {
    SoloVerdict(c, s, t, n, now);
  }

  /** What asking the tenant's bucket leaves. */
  ghost predicate TenantAnswered(c: Limits2, l: Limiter, l': Limiter, t: nat, i: nat, n: nat, now: int)
    requires MayAsk(c, l, t, i)
  {
    var mine := CanGive(c.tenants[i], l.tenants[i], n, now);
    && |l'.tenants| == |l.tenants| && l'.admitted == l.admitted
    && l'.callers == l.callers[t := if mine then AskGlobal(i, n) else Outside]
    && l'.global == (if mine then Step(c.global, l.global, Move(t, CallTryConsume(n))) else l.global)
    && l'.tenants[i].threads == l.tenants[i].threads
    && l'.tenants[i].tokens == Ready(c.tenants[i], l.tenants[i], n, now) - if mine then n else 0
  }

  lemma AsksTenant(c: Limits2, l: Limiter, t: nat, i: nat, n: nat, now: int) returns (l': Limiter, j: nat)
    requires MayAsk(c, l, t, i)
    ensures j <= 9 && Fit(c, l') && GoesOn(c, Next(c, l, Turn(t, AllowN(i, n))), t, now, j) == l'
    ensures TenantAnswered(c, l, l', t, i, n, now)
  {
    var l1 := Next(c, l, Turn(t, AllowN(i, n)));
    CallVerdict(c.tenants[i], l.tenants[i], t, n, now);
    assert l1.tenants[i] == Step(c.tenants[i], l.tenants[i], Move(t, CallTryConsume(n)));
    j := TenantPart(c, l1, t, now, 9);
    l' := GoesOn(c, l1, t, now, j);
  }

  /** What asking the global bucket leaves; it was `before` when the call on it began. */
  ghost predicate GlobalAnswered(c: Limits2, l: Limiter, l': Limiter, t: nat, i: nat, n: nat, now: int, before: State)
    requires t < |l.callers| && i < |l.tenants| && i < |l.admitted| && i < |c.tenants|
  {
    var all := CanGive(c.global, before, n, now);
    && l'.callers == l.callers[t := if all then Outside else GiveBack(i, n)]
    && l'.global.tokens == Ready(c.global, before, n, now) - (if all then n else 0)
    && l'.admitted == (if all then l.admitted[i := l.admitted[i] + n] else l.admitted)
    && l'.tenants == (if all then l.tenants
                      else l.tenants[i := Step(c.tenants[i], l.tenants[i], Move(t, CallReturn(n)))])
  }

  lemma AsksGlobal(c: Limits2, l: Limiter, t: nat, i: nat, n: nat, now: int, before: State)
      returns (l': Limiter, j: nat)
    requires Fit(c, l) && t < |l.callers| && l.callers[t] == AskGlobal(i, n) && i < |l.tenants|
    requires t < |before.threads| && before.threads[t].Idle? && 0 <= before.tokens <= c.global.maxTokens
    requires l.global == Step(c.global, before, Move(t, CallTryConsume(n)))
    ensures j <= 9 && Fit(c, l') && GoesOn(c, l, t, now, j) == l'
    ensures GlobalAnswered(c, l, l', t, i, n, now, before)
  {
    CallVerdict(c.global, before, t, n, now);
    j := GlobalPart(c, l, t, now, 9);
    l' := GoesOn(c, l, t, now, j);
  }

  lemma GivesBack(c: Limits2, l: Limiter, t: nat, i: nat, n: nat, now: int, before: State) returns (l': Limiter, j: nat)
    requires Fit(c, l) && t < |l.callers| && l.callers[t] == GiveBack(i, n) && i < |l.tenants|
    requires t < |before.threads| && before.threads[t].Idle? && before.tokens + n <= c.tenants[i].maxTokens
    requires l.tenants[i] == Step(c.tenants[i], before, Move(t, CallReturn(n)))
    ensures j <= 2 && Fit(c, l') && GoesOn(c, l, t, now, j) == l'
    ensures l'.callers == l.callers[t := Outside] && l'.admitted == l.admitted && l'.global == l.global
    ensures |l'.tenants| == |l.tenants| && l'.tenants[i].tokens == before.tokens + n
  {
    SoloReturn(c.tenants[i], before, t, n, now);
    assert Returns(Alone(c.tenants[i], l.tenants[i], t, now, 2), t);
    j := GiveBackPart(c, l, t, now, 2);
    l' := GoesOn(c, l, t, now, j);
  }

  /** What is left to do once the tenant's bucket gave n tokens. */
  ghost predicate RestDone(c: Limits2, l: Limiter, l': Limiter, t: nat, i: nat, n: nat, now: int, before: State)
    requires t < |l.callers| && i < |l.tenants| && i < |l.admitted|
  {
    var all := CanGive(c.global, before, n, now);
    && i < |l'.tenants| && l'.callers == l.callers[t := Outside]
    && l'.global.tokens == Ready(c.global, before, n, now) - (if all then n else 0)
    && l'.admitted == (if all then l.admitted[i := l.admitted[i] + n] else l.admitted)
    && l'.tenants[i].tokens == l.tenants[i].tokens + if all then 0 else n
  }

  lemma RestOfRequest(c: Limits2, l: Limiter, t: nat, i: nat, n: nat, now: int, before: State, k: nat)
    requires Fit(c, l) && t < |l.callers| && l.callers[t] == AskGlobal(i, n) && i < |l.tenants|
    requires t < |before.threads| && before.threads[t].Idle? && 0 <= before.tokens <= c.global.maxTokens
    requires l.global == Step(c.global, before, Move(t, CallTryConsume(n)))
    requires t < |l.tenants[i].threads| && l.tenants[i].threads[t].Idle?
    requires l.tenants[i].tokens + n <= c.tenants[i].maxTokens && k >= 11
    ensures RestDone(c, l, GoesOn(c, l, t, now, k), t, i, n, now, before)
  {
    var l2, j := AsksGlobal(c, l, t, i, n, now, before);
    GoesOnFurther(c, l, t, now, j, k - j);
    if CanGive(c.global, before, n, now) {
      OutsideStays(c, l2, t, now, k - j);
    } else {
      LastPart(c, l2, t, i, n, now, l.tenants[i], k - j);
      assert l2.callers[t := Outside] == l.callers[t := Outside];
    }
  }

  lemma LastPart(c: Limits2, l: Limiter, t: nat, i: nat, n: nat, now: int, before: State, k: nat)
    requires Fit(c, l) && t < |l.callers| && l.callers[t] == GiveBack(i, n) && i < |l.tenants|
    requires t < |before.threads| && before.threads[t].Idle? && before.tokens + n <= c.tenants[i].maxTokens
    requires l.tenants[i] == Step(c.tenants[i], before, Move(t, CallReturn(n))) && k >= 2
    ensures var l' := GoesOn(c, l, t, now, k);
            && l'.callers == l.callers[t := Outside] && l'.admitted == l.admitted && l'.global == l.global
            && |l'.tenants| == |l.tenants| && l'.tenants[i].tokens == before.tokens + n
  {
    var l3, j := GivesBack(c, l, t, i, n, now, before);
    GoesOnFurther(c, l, t, now, j, k - j);
    OutsideStays(c, l3, t, now, k - j);
  }

  lemma RefusedIsAnswered(c: Limits2, l: Limiter, l1: Limiter, t: nat, i: nat, n: nat, now: int)
    requires MayAsk(c, l, t, i) && Fit(c, l1) && TenantAnswered(c, l, l1, t, i, n, now)
    requires !CanGive(c.tenants[i], l.tenants[i], n, now)
    ensures Answered(c, l, l1, t, i, n, now)
  {
    assert l.callers[t := Outside] == l.callers;
  }

  lemma RestIsAnswered(c: Limits2, l: Limiter, l1: Limiter, l': Limiter, t: nat, i: nat, n: nat, now: int)
    requires MayAsk(c, l, t, i) && Fit(c, l1) && Fit(c, l') && TenantAnswered(c, l, l1, t, i, n, now)
    requires CanGive(c.tenants[i], l.tenants[i], n, now)
    requires RestDone(c, l1, l', t, i, n, now, l.global)
    ensures Answered(c, l, l', t, i, n, now)
  {
    assert l1.callers[t := Outside] == l.callers[t := Outside] == l.callers;
  }

  /** A request that nobody interferes with, given 20 moves or more, is admitted exactly if its tenant's
      bucket and the global one can each give n tokens. */
  lemma SoloAllowN(c: Limits2, l: Limiter, t: nat, i: nat, n: nat, now: int, k: nat)
    requires MayAsk(c, l, t, i) && k >= 20
    ensures var l' := GoesOn(c, Next(c, l, Turn(t, AllowN(i, n))), t, now, k);
            i < |l'.tenants| && Answered(c, l, l', t, i, n, now)
  {
    var l1, j := AsksTenant(c, l, t, i, n, now);
    GoesOnFurther(c, Next(c, l, Turn(t, AllowN(i, n))), t, now, j, k - j);
    if CanGive(c.tenants[i], l.tenants[i], n, now) {
      HoldsWithinCapacity(c.tenants[i], l.tenants[i], n, now);
      RestOfRequest(c, l1, t, i, n, now, l.global, k - j);
      RestIsAnswered(c, l, l1, GoesOn(c, l1, t, now, k - j), t, i, n, now);
    } else {
      OutsideStays(c, l1, t, now, k - j);
      RefusedIsAnswered(c, l, l1, t, i, n, now);
    }
  }

  lemma HoldsWithinCapacity(c: Limits, s: State, n: nat, now: int)
    requires 0 <= s.tokens <= c.maxTokens
    ensures Ready(c, s, n, now) <= c.maxTokens
  {
  }

  /** A turn of the refill loop that nobody interferes with refills its bucket. */
  lemma SoloRefillTurn(c: Limits2, l: Limiter, t: nat, i: nat, now: int)
    requires MayAsk(c, l, t, i)
    ensures var l1 := Next(c, l, Turn(t, StartRefillTenant(i)));
            exists j :: j <= 5 && var l' := GoesOn(c, l1, t, now, j);
                        && |l'.tenants| == |l.tenants| && l'.callers == l.callers && l'.global == l.global
                        && l'.admitted == l.admitted && Refilled(c.tenants[i], l.tenants[i], l'.tenants[i], now)
    ensures var l1 := Next(c, l, Turn(t, StartRefillGlobal));
            exists j :: j <= 5 && var l' := GoesOn(c, l1, t, now, j);
                        && l'.tenants == l.tenants && l'.callers == l.callers
                        && l'.admitted == l.admitted && Refilled(c.global, l.global, l'.global, now)
  {
    SoloRefill(c.tenants[i], l.tenants[i], t, now);
    var lt := Next(c, l, Turn(t, StartRefillTenant(i)));
    var j := RefillTenantPart(c, lt, t, now, 5);
    assert lt.callers[t := Outside] == l.callers[t := Outside] == l.callers;
    SoloRefill(c.global, l.global, t, now);
    var lg := Next(c, l, Turn(t, StartRefillGlobal));
    var k := RefillGlobalPart(c, lg, t, now, 5);
    assert lg.callers[t := Outside] == l.callers[t := Outside] == l.callers;
  }

  /** What was earned since the last refill has been added to the bucket. */
  ghost predicate Refilled(c: Limits, s: State, s': State, now: int) {
    s'.tokens == HoldsAt(c, s, now) && s'.lastRefill == if now > s.lastRefill then now else s.lastRefill
  }

  lemma {:induction false} RefillTenantPart(c: Limits2, l: Limiter, t: nat, now: int, k: nat) returns (j: nat)
    requires Fit(c, l) && t < |l.callers| && l.callers[t].RefillTenant?
    requires var i := l.callers[t].tenant; ReturnsIn(c.tenants[i], l.tenants[i], t, now, k)
    ensures j <= k
    ensures var i := l.callers[t].tenant;
            GoesOn(c, l, t, now, j)
            == l.(tenants := l.tenants[i := Alone(c.tenants[i], l.tenants[i], t, now, k)],
                  callers := l.callers[t := Outside])
    decreases k
  {
    var i := l.callers[t].tenant;
    var l1 := Next(c, l, Turn(t, GoOn(now)));
    BucketStep(c.tenants[i], l.tenants[i], t, now, k);
    if l1.callers[t].RefillTenant? {
      j := RefillTenantPart(c, l1, t, now, k - 1);
      j := j + 1;
    } else {
      j := 1;
      assert GoesOn(c, l, t, now, j) == GoesOn(c, l1, t, now, 0);
    }
  }

  lemma {:induction false} RefillGlobalPart(c: Limits2, l: Limiter, t: nat, now: int, k: nat) returns (j: nat)
    requires Fit(c, l) && t < |l.callers| && l.callers[t].RefillGlobal? && ReturnsIn(c.global, l.global, t, now, k)
    ensures j <= k
    ensures GoesOn(c, l, t, now, j)
            == l.(global := Alone(c.global, l.global, t, now, k), callers := l.callers[t := Outside])
    decreases k
  {
    var l1 := Next(c, l, Turn(t, GoOn(now)));
    BucketStep(c.global, l.global, t, now, k);
    if l1.callers[t].RefillGlobal? {
      j := RefillGlobalPart(c, l1, t, now, k - 1);
      j := j + 1;
    } else {
      j := 1;
      assert GoesOn(c, l, t, now, j) == GoesOn(c, l1, t, now, 0);
    }
  }
}
