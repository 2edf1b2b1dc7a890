/** Evaluating all cascade rules on one snapshot and applying every decision, round after round. */
module CascadeRounds {
  import opened CascadeRules
  import opened Graph

  datatype Action = ScaleOut | ScaleIn

  datatype Decision = Decision(service: string, action: Action, current: int, target: int)

  /** The decisions of one evaluation and the record of which cascades fired when. */
  datatype Round = Round(decisions: seq<Decision>, executions: map<string, int>)

  /** What a cooldown is remembered under. */
  function Key(r: Rule): string {
    r.trigger + "->" + r.target
  }

  predicate InCooldown(executions: map<string, int>, r: Rule, now: int) {
    Key(r) in executions && now - executions[Key(r)] < r.delay
  }

  /** The rule's trigger is there and its condition holds. */
  predicate Applies(r: Rule, counts: map<string, int>) {
    r.trigger in counts && ShouldTrigger(r, counts[r.trigger])
  }

  /** The number of instances a rule that applies asks for. */
  function Asks(r: Rule, counts: map<string, int>): int
    requires Applies(r, counts)
  {
    TargetInstances(r, counts[r.trigger])
  }

  /** The rule applies to this snapshot and asks for another number of instances than there are. */
  predicate Wants(r: Rule, counts: map<string, int>) {
    Applies(r, counts) && r.target in counts && Asks(r, counts) != counts[r.target]
  }

  function Evaluate(rules: seq<Rule>, counts: map<string, int>, executions: map<string, int>, now: int): Round {
    if rules == [] then Round([], executions)
    else
      var before := Evaluate(rules[..|rules| - 1], counts, executions, now);
      var r := rules[|rules| - 1];
      if Wants(r, counts) && !InCooldown(before.executions, r, now) then
        var target := TargetInstances(r, counts[r.trigger]);
        var action := if target > counts[r.target] then ScaleOut else ScaleIn;
        Round(before.decisions + [Decision(r.target, action, counts[r.target], target)],
              before.executions[Key(r) := now])
      else before
  }

  /** Instance counts after applying decisions in order, every scaling of a service succeeding. */
  function Applied(counts: map<string, int>, decisions: seq<Decision>): map<string, int> {
    if decisions == [] then counts
    else
      var d := decisions[|decisions| - 1];
      Applied(counts, decisions[..|decisions| - 1])[d.service := d.target]
  }

  /** No decision concerns the service from position k on. */
  ghost predicate NoneFrom(decisions: seq<Decision>, k: nat, service: string) {
    forall j :: k <= j < |decisions| ==> decisions[j].service != service
  }

  lemma {:induction false} UndecidedKeeps(counts: map<string, int>, decisions: seq<Decision>, service: string)
    requires NoneFrom(decisions, 0, service)
    ensures var after := Applied(counts, decisions);
            (service in after <==> service in counts) && (service in after ==> after[service] == counts[service])
  {
    if decisions != [] {
      UndecidedKeeps(counts, decisions[..|decisions| - 1], service);
    }
  }

  /** A service that was decided on gets its last decision; any other keeps its count. */
  lemma {:induction false} LastDecisionCounts(counts: map<string, int>, decisions: seq<Decision>, k: nat)
    requires k < |decisions| && NoneFrom(decisions, k + 1, decisions[k].service)
    ensures var after := Applied(counts, decisions);
            decisions[k].service in after && after[decisions[k].service] == decisions[k].target
  {
    if k < |decisions| - 1 {
      LastDecisionCounts(counts, decisions[..|decisions| - 1], k);
    }
  }

  /** The loop that applies decisions: each is compared with the count at that moment. */
  method ApplyDecisions(counts: map<string, int>, decisions: seq<Decision>) returns (after: map<string, int>)
    ensures after == Applied(counts, decisions)
  {
    after := counts;
    for i := 0 to |decisions|
      invariant after == Applied(counts, decisions[..i])
    {
      var d := decisions[i];
      assert decisions[..i + 1][..i] == decisions[..i];
      if d.service !in after || d.target != after[d.service] {
        after := after[d.service := d.target];
      }
    }
    assert decisions[..|decisions|] == decisions;
  }

  datatype State = State(counts: map<string, int>, executions: map<string, int>)

  function NextRound(rules: seq<Rule>, s: State, now: int): State {
    var round := Evaluate(rules, s.counts, s.executions, now);
    State(Applied(s.counts, round.decisions), round.executions)
  }

  /** One round at each of the given times. */
  function Rounds(rules: seq<Rule>, s: State, times: seq<int>): State {
    if times == [] then s
    else NextRound(rules, Rounds(rules, s, times[..|times| - 1]), times[|times| - 1])
  }

  // ---- Assumptions of the convergence theorem ----

  ghost predicate OneRulePerTarget(rules: seq<Rule>) {
    forall i, j :: 0 <= i < j < |rules| ==> rules[i].target != rules[j].target
  }

  /** Rules share a cooldown only if they share their target. */
  ghost predicate KeysByTarget(rules: seq<Rule>) {
    forall a, b :: a in rules && b in rules && Key(a) == Key(b) ==> a.target == b.target
  }

  /** The rules of one target that apply ask for the same number of instances. */
  ghost predicate AgreeOn(rules: seq<Rule>, counts: map<string, int>, service: string) {
    forall a, b :: a in rules && b in rules && a.target == service == b.target ==>
      (Applies(a, counts) && Applies(b, counts) ==> Asks(a, counts) == Asks(b, counts))
  }

  ghost predicate Agreeing(rules: seq<Rule>, counts: map<string, int>) {
    forall t :: t in counts ==> AgreeOn(rules, counts, t)
  }

  /** No rule is in cooldown at this time. */
  ghost predicate Ready(rules: seq<Rule>, executions: map<string, int>, now: int) {
    forall r :: r in rules ==> !InCooldown(executions, r, now)
  }

  /** Rounds follow each other by at least every rule's delay, and the first finds no cooldown. */
  ghost predicate Spaced(rules: seq<Rule>, s: State, times: seq<int>) {
    && (times != [] ==> Ready(rules, s.executions, times[0]))
    && forall i :: 0 <= i < |times| - 1 ==>
         && times[i] <= times[i + 1]
         && forall r :: r in rules ==> times[i + 1] - times[i] >= r.delay
  }

  /** Some rule still asks for a change. */
  ghost predicate Pending(rules: seq<Rule>, counts: map<string, int>) {
    exists r :: r in rules && Wants(r, counts)
  }

  // ---- One round ----

  /** A round starts only cooldowns of rules that want a change, all at the same time. */
  lemma {:induction false} EvaluateExecutions(rules: seq<Rule>, counts: map<string, int>,
                                              executions: map<string, int>, now: int, key: string)
    ensures var after := Evaluate(rules, counts, executions, now).executions;
            || (key in after && after[key] == now)
            || ((key in after <==> key in executions) && (key in after ==> after[key] == executions[key]))
  {
    if rules != [] {
      EvaluateExecutions(rules[..|rules| - 1], counts, executions, now, key);
    }
  }

  lemma {:induction false} CooldownHasACause(rules: seq<Rule>, counts: map<string, int>,
                                             executions: map<string, int>, now: int, r: Rule)
    requires !InCooldown(executions, r, now)
    requires InCooldown(Evaluate(rules, counts, executions, now).executions, r, now)
    ensures exists x :: x in rules && Key(x) == Key(r) && Wants(x, counts)
  {
    var before, last := rules[..|rules| - 1], rules[|rules| - 1];
    if InCooldown(Evaluate(before, counts, executions, now).executions, r, now) {
      CooldownHasACause(before, counts, executions, now, r);
    } else {
      assert last in rules && Key(last) == Key(r) && Wants(last, counts);
    }
  }

  /** One more rule in a round overwrites its target if it wants to and is not in cooldown. */
  lemma RoundStep(before: seq<Rule>, r: Rule, s: State, now: int)
    ensures NextRound(before + [r], s, now).counts ==
              if Wants(r, s.counts) && !InCooldown(Evaluate(before, s.counts, s.executions, now).executions, r, now)
              then NextRound(before, s, now).counts[r.target := Asks(r, s.counts)]
              else NextRound(before, s, now).counts
  {
  }

  lemma {:induction false} ServicesStay(rules: seq<Rule>, s: State, now: int)
    ensures NextRound(rules, s, now).counts.Keys == s.counts.Keys
  {
    if rules != [] {
      var before, r := rules[..|rules| - 1], rules[|rules| - 1];
      ServicesStay(before, s, now);
      RoundStep(before, r, s, now);
      assert rules == before + [r];
    }
  }

  /** A service is as before after a round if no rule wants to change it. */
  lemma {:induction false} RoundKeeps(rules: seq<Rule>, s: State, now: int, service: string)
    requires service in s.counts && forall r :: r in rules && r.target == service ==> !Wants(r, s.counts)
    ensures service in NextRound(rules, s, now).counts
    ensures NextRound(rules, s, now).counts[service] == s.counts[service]
  {
    if rules != [] {
      var before, r := rules[..|rules| - 1], rules[|rules| - 1];
      RoundKeeps(before, s, now, service);
      RoundStep(before, r, s, now);
      assert rules == before + [r] && r in rules;
    }
  }

  /** A service gets the number of instances that all rules that want to change it ask for. */
  lemma {:induction false} RoundSets(rules: seq<Rule>, s: State, now: int, service: string, count: int, wanting: Rule)
    requires KeysByTarget(rules) && Ready(rules, s.executions, now) && service in s.counts
    requires wanting in rules && wanting.target == service && Wants(wanting, s.counts)
    requires forall r :: r in rules && r.target == service && Wants(r, s.counts) ==> Asks(r, s.counts) == count
    ensures service in NextRound(rules, s, now).counts && NextRound(rules, s, now).counts[service] == count
  {
    var before, r := rules[..|rules| - 1], rules[|rules| - 1];
    var executions := Evaluate(before, s.counts, s.executions, now).executions;
    assert rules == before + [r] && r in rules;
    RoundStep(before, r, s, now);
    if r.target == service && Wants(r, s.counts) {
      if InCooldown(executions, r, now) {
        CooldownHasACause(before, s.counts, s.executions, now, r);
        var x :| x in before && Key(x) == Key(r) && Wants(x, s.counts);
        RoundSets(before, s, now, service, count, x);
      }
    } else {
      RoundSets(before, s, now, service, count, wanting);
    }
  }

  /** After a round a target has what its rules agree on, if any of them applies. */
  lemma RoundSettles(rules: seq<Rule>, s: State, now: int, r: Rule)
    requires KeysByTarget(rules) && Ready(rules, s.executions, now)
    requires r in rules && Applies(r, s.counts) && r.target in s.counts && AgreeOn(rules, s.counts, r.target)
    ensures r.target in NextRound(rules, s, now).counts
    ensures NextRound(rules, s, now).counts[r.target] == Asks(r, s.counts)
  {
    if x :| x in rules && x.target == r.target && Wants(x, s.counts) {
      RoundSets(rules, s, now, r.target, Asks(r, s.counts), x);
    } else {
      RoundKeeps(rules, s, now, r.target);
    }
  }

  lemma RoundKeepsReady(rules: seq<Rule>, s: State, now: int, next: int)
    requires Ready(rules, s.executions, now) && now <= next
    requires forall r :: r in rules ==> next - now >= r.delay
    ensures Ready(rules, NextRound(rules, s, now).executions, next)
  {
    forall r | r in rules
      ensures !InCooldown(NextRound(rules, s, now).executions, r, next)
    {
      EvaluateExecutions(rules, s.counts, s.executions, now, Key(r));
    }
  }

  // ---- Runs of rounds ----

  /** The state before round k + 1. */
  function Snap(rules: seq<Rule>, s: State, times: seq<int>, k: nat): State
    requires k <= |times|
  {
    Rounds(rules, s, times[..k])
  }

  lemma SnapStep(rules: seq<Rule>, s: State, times: seq<int>, k: nat)
    requires k < |times|
    ensures Snap(rules, s, times, k + 1) == NextRound(rules, Snap(rules, s, times, k), times[k])
  {
    assert times[..k + 1][..k] == times[..k];
  }

  lemma {:induction false} SnapServices(rules: seq<Rule>, s: State, times: seq<int>, k: nat)
    requires k <= |times|
    ensures Snap(rules, s, times, k).counts.Keys == s.counts.Keys
  {
    if k > 0 {
      SnapServices(rules, s, times, k - 1);
      SnapStep(rules, s, times, k - 1);
      ServicesStay(rules, Snap(rules, s, times, k - 1), times[k - 1]);
    }
  }

  lemma {:induction false} SnapReady(rules: seq<Rule>, s: State, times: seq<int>, k: nat)
    requires Spaced(rules, s, times) && k < |times|
    ensures Ready(rules, Snap(rules, s, times, k).executions, times[k])
  {
    if k > 0 {
      SnapReady(rules, s, times, k - 1);
      SnapStep(rules, s, times, k - 1);
      RoundKeepsReady(rules, Snap(rules, s, times, k - 1), times[k - 1], times[k]);
    }
  }

  /** Round k changes the count of a service. */
  ghost predicate ChangedIn(rules: seq<Rule>, s: State, times: seq<int>, service: string, k: nat)
    requires 1 <= k <= |times|
  {
    var was, now := Snap(rules, s, times, k - 1).counts, Snap(rules, s, times, k).counts;
    service in was && service in now && was[service] != now[service]
  }

  lemma {:induction false} SomeRoundChanged(rules: seq<Rule>, s: State, times: seq<int>, service: string,
                                            i: nat, k: nat) returns (j: nat)
    requires i <= k <= |times| && service in s.counts
    requires var was, now := Snap(rules, s, times, i).counts, Snap(rules, s, times, k).counts;
             service in was && service in now && was[service] != now[service]
    ensures i < j <= k && ChangedIn(rules, s, times, service, j)
    decreases k
  {
    SnapServices(rules, s, times, k);
    SnapServices(rules, s, times, k - 1);
    if ChangedIn(rules, s, times, service, k) {
      j := k;
    } else {
      j := SomeRoundChanged(rules, s, times, service, i, k - 1);
    }
  }

  // ---- Walks ----

  ghost predicate Distinct(p: seq<string>) {
    forall i, j :: 0 <= i < j < |p| ==> p[i] != p[j]
  }

  lemma AcyclicWalkIsDistinct(es: Edges, p: seq<string>)
    requires !Cyclic(es) && Walk(es, p)
    ensures Distinct(p)
  {
    forall i, j | 0 <= i < j < |p|
      ensures p[i] != p[j]
    {
      RepetitionIsCycle(es, p, i, j);
    }
  }

  lemma RepetitionIsCycle(es: Edges, p: seq<string>, i: nat, j: nat)
    requires Walk(es, p) && i < j < |p|
    ensures p[i] == p[j] ==> Cyclic(es)
  {
    if p[i] == p[j] {
      assert Cycle(es, p[i..j + 1]);
    }
  }

  lemma {:induction false} DistinctFits(p: seq<string>, services: set<string>)
    requires Distinct(p) && forall i :: 0 <= i < |p| ==> p[i] in services
    ensures |p| <= |services|
  {
    if p != [] {
      var last := p[|p| - 1];
      DistinctFits(p[..|p| - 1], services - {last});
    }
  }

  /** A walk along the rules that stays within these services. */
  ghost predicate WalkWithin(rules: seq<Rule>, services: set<string>, p: seq<string>) {
    Walk(RuleEdges(rules), p) && forall i :: 0 <= i < |p| ==> p[i] in services
  }

  /** One or more rules lead from u to v. */
  ghost predicate Upstream(rules: seq<Rule>, services: set<string>, u: string, v: string) {
    exists p :: WalkWithin(rules, services, p) && |p| >= 2 && p[0] == u && p[|p| - 1] == v
  }

  lemma TriggerIsUpstream(rules: seq<Rule>, services: set<string>, r: Rule)
    requires r in rules && r.trigger in services && r.target in services
    ensures Upstream(rules, services, r.trigger, r.target)
  {
    assert (r.trigger, r.target) in RuleEdges(rules);
    assert WalkWithin(rules, services, [r.trigger, r.target]);
  }

  lemma WalksJoin(rules: seq<Rule>, services: set<string>, p: seq<string>, q: seq<string>)
    requires WalkWithin(rules, services, p) && WalkWithin(rules, services, q) && p[|p| - 1] == q[0]
    ensures var j := p[..|p| - 1] + q; WalkWithin(rules, services, j) && j[0] == p[0] && j[|j| - 1] == q[|q| - 1]
  {
  }

  lemma UpstreamIsTransitive(rules: seq<Rule>, services: set<string>, u: string, v: string, w: string)
    requires Upstream(rules, services, u, v) && Upstream(rules, services, v, w)
    ensures Upstream(rules, services, u, w)
  {
    var p :| WalkWithin(rules, services, p) && |p| >= 2 && p[0] == u && p[|p| - 1] == v;
    var q :| WalkWithin(rules, services, q) && |q| >= 2 && q[0] == v && q[|q| - 1] == w;
    WalksJoin(rules, services, p, q);
  }

  // ---- Convergence ----

  /** The rules agree on this service and on everything upstream of it. */
  ghost predicate AgreeUpTo(rules: seq<Rule>, counts: map<string, int>, service: string) {
    && AgreeOn(rules, counts, service)
    && forall u :: Upstream(rules, counts.Keys, u, service) ==> AgreeOn(rules, counts, u)
  }

  lemma TriggerAgreesToo(rules: seq<Rule>, counts: map<string, int>, r: Rule)
    requires r in rules && r.trigger in counts && r.target in counts && AgreeUpTo(rules, counts, r.target)
    ensures AgreeUpTo(rules, counts, r.trigger)
  {
    TriggerIsUpstream(rules, counts.Keys, r);
    forall u | Upstream(rules, counts.Keys, u, r.trigger)
      ensures AgreeOn(rules, counts, u)
    {
      UpstreamIsTransitive(rules, counts.Keys, u, r.trigger, r.target);
    }
  }

  /** Two snapshots have the same counts of everything that triggers a rule for the service. */
  ghost predicate SameInputs(rules: seq<Rule>, a: map<string, int>, b: map<string, int>, service: string) {
    forall r :: r in rules && r.target == service && r.trigger in a ==> r.trigger in b && a[r.trigger] == b[r.trigger]
  }

  lemma AgreementTransfers(rules: seq<Rule>, a: map<string, int>, b: map<string, int>, service: string)
    requires SameInputs(rules, a, b, service) && AgreeOn(rules, b, service)
    ensures AgreeOn(rules, a, service)
  {
    assert forall r :: r in rules && r.target == service && Applies(r, a) ==> Applies(r, b) && Asks(r, a) == Asks(r, b);
  }

  /** A target whose rules agreed in two snapshots in a row, on the same inputs, does not change in the
      second round. */
  lemma SettledStays(rules: seq<Rule>, s: State, now: int, r: Rule)
    requires KeysByTarget(rules) && Ready(rules, s.executions, now)
    requires var next := NextRound(rules, s, now).counts;
             && r in rules && r.target in s.counts && r.target in next && Wants(r, next)
             && s.counts.Keys == next.Keys && AgreeOn(rules, next, r.target)
    ensures !SameInputs(rules, s.counts, NextRound(rules, s, now).counts, r.target)
  {
    var next := NextRound(rules, s, now).counts;
    if SameInputs(rules, s.counts, next, r.target) {
      AgreementTransfers(rules, s.counts, next, r.target);
      RoundSettles(rules, s, now, r);
    }
  }

  /** A rule for the service whose trigger differs between two snapshots. */
  lemma DifferentInput(rules: seq<Rule>, a: map<string, int>, b: map<string, int>, service: string) returns (r: Rule)
    requires !SameInputs(rules, a, b, service) && a.Keys == b.Keys
    ensures r in rules && r.target == service && r.trigger in a && a[r.trigger] != b[r.trigger]
  {
    r :| r in rules && r.target == service && r.trigger in a && !(r.trigger in b && a[r.trigger] == b[r.trigger]);
  }

  /** A service that changes in a round is the target of a rule that wanted it to. */
  lemma ChangeIsWanted(rules: seq<Rule>, s: State, times: seq<int>, service: string, k: nat) returns (r: Rule)
    requires 1 <= k <= |times| && ChangedIn(rules, s, times, service, k)
    ensures r in rules && r.target == service && Wants(r, Snap(rules, s, times, k - 1).counts)
  {
    var was := Snap(rules, s, times, k - 1);
    SnapStep(rules, s, times, k - 1);
    if forall x :: x in rules && x.target == service ==> !Wants(x, was.counts) {
      RoundKeeps(rules, was, times[k - 1], service);
    }
    r :| r in rules && r.target == service && Wants(r, was.counts);
  }

  /** If the rules agree in the end, a service that changes in round k > 1 is the target of a rule whose
      trigger changed in the round before or later. */
  lemma ChangeHasACause(rules: seq<Rule>, s: State, times: seq<int>, service: string, k: nat)
      returns (r: Rule, j: nat)
    requires KeysByTarget(rules) && Spaced(rules, s, times) && 2 <= k <= |times| && service in s.counts
    requires ChangedIn(rules, s, times, service, k)
    requires AgreeOn(rules, Snap(rules, s, times, |times| - 1).counts, service)
    ensures r in rules && r.target == service && r.trigger in s.counts
    ensures k - 1 <= j <= |times| && ChangedIn(rules, s, times, r.trigger, j)
  {
    var end, was, before := |times| - 1, Snap(rules, s, times, k - 1), Snap(rules, s, times, k - 2);
    SnapServices(rules, s, times, k - 1);
    SnapServices(rules, s, times, k - 2);
    SnapServices(rules, s, times, end);
    if SameInputs(rules, was.counts, Snap(rules, s, times, end).counts, service) {
      AgreementTransfers(rules, was.counts, Snap(rules, s, times, end).counts, service);
      var wanting := ChangeIsWanted(rules, s, times, service, k);
      SnapReady(rules, s, times, k - 2);
      SnapStep(rules, s, times, k - 2);
      SettledStays(rules, before, times[k - 2], wanting);
      r := DifferentInput(rules, before.counts, was.counts, service);
      j := k - 1;
    } else {
      r := DifferentInput(rules, was.counts, Snap(rules, s, times, end).counts, service);
      j := SomeRoundChanged(rules, s, times, r.trigger, k - 1, end);
    }
  }

  /** So if the rules agree in the end on a service and upstream of it, a change in round k has a walk of
      up to k rules behind it. */
  lemma {:induction false} ChangeHasAHistory(rules: seq<Rule>, s: State, times: seq<int>, service: string,
                                             k: nat, n: nat) returns (p: seq<string>)
    requires KeysByTarget(rules) && Spaced(rules, s, times) && service in s.counts
    requires 1 <= k <= |times| && 1 <= n <= k + 1
    requires ChangedIn(rules, s, times, service, k)
    requires AgreeUpTo(rules, Snap(rules, s, times, |times| - 1).counts, service)
    ensures WalkWithin(rules, s.counts.Keys, p) && |p| == n && p[n - 1] == service
    decreases n
  {
    if n == 1 {
      p := [service];
    } else {
      var r: Rule, q: seq<string>;
      if n == 2 {
        r := ChangeIsWanted(rules, s, times, service, k);
        SnapServices(rules, s, times, k - 1);
        q := [r.trigger];
      } else {
        var j: nat;
        SnapServices(rules, s, times, |times| - 1);
        r, j := ChangeHasACause(rules, s, times, service, k);
        TriggerAgreesToo(rules, Snap(rules, s, times, |times| - 1).counts, r);
        q := ChangeHasAHistory(rules, s, times, r.trigger, j, n - 1);
      }
      p := RuleExtendsWalk(rules, r, q);
    }
  }

  lemma RuleExtendsWalk(rules: seq<Rule>, r: Rule, q: seq<string>) returns (p: seq<string>)
    requires r in rules && Walk(RuleEdges(rules), q) && q[|q| - 1] == r.trigger
    ensures p == q + [r.target] && Walk(RuleEdges(rules), p)
  {
    assert (r.trigger, r.target) in RuleEdges(rules);
    p := q + [r.target];
  }

  lemma SettledAgrees(rules: seq<Rule>, counts: map<string, int>)
    requires !Pending(rules, counts)
    ensures Agreeing(rules, counts)
  {
    forall r | r in rules && r.target in counts && Applies(r, counts)
      ensures Asks(r, counts) == counts[r.target]
    {
      assert !Wants(r, counts);
    }
  }

  /** A rule that wants a change and whose target's rules agree gets it in the next round. */
  lemma NextRoundChanges(rules: seq<Rule>, s: State, times: seq<int>, k: nat, r: Rule)
    requires KeysByTarget(rules) && Spaced(rules, s, times) && k < |times|
    requires var counts := Snap(rules, s, times, k).counts;
             r in rules && Wants(r, counts) && AgreeOn(rules, counts, r.target)
    ensures r.target in s.counts && ChangedIn(rules, s, times, r.target, k + 1)
  {
    SnapServices(rules, s, times, k);
    SnapReady(rules, s, times, k);
    SnapStep(rules, s, times, k);
    RoundSettles(rules, Snap(rules, s, times, k), times[k], r);
  }

  /** On acyclic rules, after as many rounds as there are services less one, a service on which and
      upstream of which the rules agree has what its rules ask for. */
  lemma AgreedSettles(rules: seq<Rule>, s: State, times: seq<int>, next: int, r: Rule)
    requires !Cyclic(RuleEdges(rules)) && KeysByTarget(rules)
    requires Spaced(rules, s, times + [next]) && |times| + 1 >= |s.counts.Keys|
    requires r in rules && AgreeUpTo(rules, Rounds(rules, s, times).counts, r.target)
    ensures !Wants(r, Rounds(rules, s, times).counts)
  {
    var all, here := times + [next], Rounds(rules, s, times);
    assert all[..|times|] == times;
    if Wants(r, here.counts) {
      NextRoundChanges(rules, s, all, |times|, r);
      var p := ChangeHasAHistory(rules, s, all, r.target, |all|, |all| + 1);
      AcyclicWalkIsDistinct(RuleEdges(rules), p);
      DistinctFits(p, s.counts.Keys);
    }
  }

  /** So then no rule asks for a change exactly if the rules of every service that apply by then agree. */
  lemma CascadesSettle(rules: seq<Rule>, s: State, times: seq<int>, next: int)
    requires !Cyclic(RuleEdges(rules)) && KeysByTarget(rules)
    requires Spaced(rules, s, times + [next]) && |times| + 1 >= |s.counts.Keys|
    ensures var counts := Rounds(rules, s, times).counts; !Pending(rules, counts) <==> Agreeing(rules, counts)
  {
    var counts := Rounds(rules, s, times).counts;
    if Agreeing(rules, counts) {
      forall r | r in rules && r.target in counts
        ensures !Wants(r, counts)
      {
        AgreedSettles(rules, s, times, next, r);
      }
    } else if !Pending(rules, counts) {
      SettledAgrees(rules, counts);
    }
  }

  lemma {:induction false} NothingPendingChangesNothing(rules: seq<Rule>, s: State, now: int)
    requires !Pending(rules, s.counts)
    ensures Evaluate(rules, s.counts, s.executions, now) == Round([], s.executions)
  {
    if rules != [] {
      assert rules[|rules| - 1] in rules;
      NothingPendingChangesNothing(rules[..|rules| - 1], s, now);
    }
  }

  /** Convergence with one rule per target: after that many rounds no rule asks for a change, and
      further rounds change nothing. */
  lemma CascadesConverge(rules: seq<Rule>, s: State, times: seq<int>, next: int)
    requires !Cyclic(RuleEdges(rules)) && OneRulePerTarget(rules) && KeysByTarget(rules)
    requires Spaced(rules, s, times + [next]) && |times| + 1 >= |s.counts.Keys|
    ensures !Pending(rules, Rounds(rules, s, times).counts)
    ensures Rounds(rules, s, times + [next]) == Rounds(rules, s, times)
  {
    var here := Rounds(rules, s, times);
    CascadesSettle(rules, s, times, next);
    OneRuleAgrees(rules, here.counts);
    NothingPendingChangesNothing(rules, here, next);
    assert (times + [next])[..|times|] == times;
  }

  lemma OneRuleAgrees(rules: seq<Rule>, counts: map<string, int>)
    requires OneRulePerTarget(rules)
    ensures Agreeing(rules, counts)
  {
  }

  // ---- Disagreeing rules ----

  /** With this count of the service none of its rules asks for a change. */
  ghost predicate SettledAt(rules: seq<Rule>, counts: map<string, int>, service: string, n: int) {
    forall r :: r in rules && r.target == service ==> !Wants(r, counts[service := n])
  }

  lemma SettledAtMeans(rules: seq<Rule>, counts: map<string, int>, service: string, n: int)
    requires service in counts && forall r :: r in rules ==> ValidRule(r)
    ensures SettledAt(rules, counts, service, n) <==>
              forall r :: r in rules && r.target == service && Applies(r, counts) ==> Asks(r, counts) == n
  {
    assert forall r :: r in rules && r.target == service ==>
        (Wants(r, counts[service := n]) <==> Applies(r, counts) && Asks(r, counts) != n);
  }

  /** Given the other counts, some count of a target satisfies all its rules exactly if those that apply
      agree. */
  lemma SettlesIffAgree(rules: seq<Rule>, counts: map<string, int>, service: string)
    requires service in counts && forall r :: r in rules ==> ValidRule(r)
    ensures (exists n :: SettledAt(rules, counts, service, n)) <==> AgreeOn(rules, counts, service)
  {
    if n :| SettledAt(rules, counts, service, n) {
      SettledAtMeans(rules, counts, service, n);
    } else if r :| r in rules && r.target == service && Applies(r, counts) {
      SettledAtMeans(rules, counts, service, Asks(r, counts));
    } else {
      SettledAtMeans(rules, counts, service, 0);
    }
  }

  /** Two rules that apply and disagree on a target are never settled while their triggers keep their
      counts. */
  lemma DisagreeingRulesPend(rules: seq<Rule>, s: State, times: seq<int>, a: Rule, b: Rule)
    requires Disagree(rules, s.counts, a, b)
    requires var counts := Rounds(rules, s, times).counts;
             && a.trigger in counts && counts[a.trigger] == s.counts[a.trigger]
             && b.trigger in counts && counts[b.trigger] == s.counts[b.trigger]
    ensures Pending(rules, Rounds(rules, s, times).counts)
  {
    var counts := Rounds(rules, s, times).counts;
    assert times[..|times|] == times;
    SnapServices(rules, s, times, |times|);
    assert Wants(a, counts) || Wants(b, counts);
  }

  ghost predicate Disagree(rules: seq<Rule>, counts: map<string, int>, a: Rule, b: Rule) {
    && a in rules && b in rules && a.target == b.target && a.target in counts
    && Applies(a, counts) && Applies(b, counts) && Asks(a, counts) != Asks(b, counts)
  }

  /** So two such rules whose triggers are no rule's target are never settled at all, by any number of
      rounds at any times. */
  lemma RivalRulesNeverSettle(rules: seq<Rule>, s: State, times: seq<int>, a: Rule, b: Rule)
    requires Disagree(rules, s.counts, a, b)
    requires forall r :: r in rules ==> r.target != a.trigger && r.target != b.trigger
    ensures Pending(rules, Rounds(rules, s, times).counts)
  {
    UntargetedStays(rules, s, times, a.trigger);
    UntargetedStays(rules, s, times, b.trigger);
    DisagreeingRulesPend(rules, s, times, a, b);
  }

  lemma {:induction false} UntargetedStays(rules: seq<Rule>, s: State, times: seq<int>, service: string)
    requires service in s.counts && forall r :: r in rules ==> r.target != service
    ensures var counts := Rounds(rules, s, times).counts; service in counts && counts[service] == s.counts[service]
  {
    if times != [] {
      var before := times[..|times| - 1];
      UntargetedStays(rules, s, before, service);
      RoundKeeps(rules, Rounds(rules, s, before), times[|times| - 1], service);
    }
  }

  /** Such rules exist, valid and acyclic. */
  lemma RivalRulesExist()
    ensures exists a, b, counts ::
              && ValidRule(a) && ValidRule(b) && !Cyclic(RuleEdges([a, b])) && Disagree([a, b], counts, a, b)
              && forall r :: r in [a, b] ==> r.target != a.trigger && r.target != b.trigger
  {
    var a := Rule("a", 0, ">=", "c", 1.0, 0, 0, 0, 0);
    var b := Rule("b", 0, ">=", "c", 2.0, 0, 0, 0, 0);
    var counts := map["a" := 1, "b" := 1, "c" := 0];
    var es := RuleEdges([a, b]);
    assert forall e :: e in es ==> e.1 == "c" && e.0 != "c";
    if Cyclic(es) {
      CyclesContinue(es);
    }
    assert a in [a, b] && b in [a, b];
    assert Asks(a, counts) == 1 && Asks(b, counts) == 2;
    assert Disagree([a, b], counts, a, b);
  }
}
