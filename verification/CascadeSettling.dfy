/** Which rules settle from every start: a condition on the rules alone, not on a run. */
module CascadeSettling {
  import opened Arith
  import opened CascadeRules
  import opened CascadeRounds
  import opened Graph

  /** A snapshot of these services: instance counts are not negative. */
  ghost predicate Snapshot(services: set<string>, counts: map<string, int>) {
    counts.Keys == services && forall t :: t in counts ==> counts[t] >= 0
  }

  /** From every start with these services, after every run of as many spaced rounds as there are services
      less one, no rule asks for a change. */
  ghost predicate AlwaysSettle(rules: seq<Rule>, services: set<string>) {
    forall s: State, times, next ::
      Snapshot(services, s.counts) && Spaced(rules, s, times + [next]) && |times| + 1 >= |services| ==>
        !Pending(rules, Rounds(rules, s, times).counts)
  }

  /** Two rules of the service apply and disagree, and no rule upstream of it asks for a change. */
  ghost predicate Deadlocked(rules: seq<Rule>, counts: map<string, int>, service: string) {
    && service in counts && !AgreeOn(rules, counts, service)
    && forall r :: r in rules && Upstream(rules, counts.Keys, r.target, service) ==> !Wants(r, counts)
  }

  // ---- A deadlock stays ----

  lemma {:induction false} UpstreamStays(rules: seq<Rule>, s: State, times: seq<int>, service: string, u: string)
    requires Deadlocked(rules, s.counts, service) && u in s.counts && Upstream(rules, s.counts.Keys, u, service)
    ensures var counts := Rounds(rules, s, times).counts; u in counts && counts[u] == s.counts[u]
    decreases |times|
  {
    if times != [] {
      var before := times[..|times| - 1];
      var was := Rounds(rules, s, before);
      UpstreamStays(rules, s, before, service, u);
      SnapServices(rules, s, before, |before|);
      assert before[..|before|] == before;
      forall r | r in rules && r.target == u
        ensures !Wants(r, was.counts)
      {
        if r.trigger in s.counts {
          TriggerIsUpstream(rules, s.counts.Keys, r);
          UpstreamIsTransitive(rules, s.counts.Keys, r.trigger, u, service);
          UpstreamStays(rules, s, before, service, r.trigger);
        }
      }
      RoundKeeps(rules, was, times[|times| - 1], u);
    }
  }

  /** After a deadlock some rule asks for a change for ever, whenever the rounds are. */
  lemma DeadlockPends(rules: seq<Rule>, s: State, times: seq<int>, service: string)
    requires Deadlocked(rules, s.counts, service)
    ensures Pending(rules, Rounds(rules, s, times).counts)
  {
    var a, b :| a in rules && b in rules && a.target == service == b.target
                && Applies(a, s.counts) && Applies(b, s.counts) && Asks(a, s.counts) != Asks(b, s.counts);
    assert Disagree(rules, s.counts, a, b);
    TriggerIsUpstream(rules, s.counts.Keys, a);
    TriggerIsUpstream(rules, s.counts.Keys, b);
    UpstreamStays(rules, s, times, service, a.trigger);
    UpstreamStays(rules, s, times, service, b.trigger);
    DisagreeingRulesPend(rules, s, times, a, b);
  }

  // ---- What does not settle ends in a deadlock ----

  /** A disagreement with none upstream of it, found by going upstream from this one. */
  lemma {:induction false} FirstDisagreement(rules: seq<Rule>, counts: map<string, int>, p: seq<string>)
      returns (service: string)
    requires !Cyclic(RuleEdges(rules)) && WalkWithin(rules, counts.Keys, p) && !AgreeOn(rules, counts, p[0])
    ensures service in counts && !AgreeOn(rules, counts, service)
    ensures forall u :: Upstream(rules, counts.Keys, u, service) ==> AgreeOn(rules, counts, u)
    decreases |counts.Keys| + 1 - |p|
  {
    service := p[0];
    AcyclicWalkIsDistinct(RuleEdges(rules), p);
    DistinctFits(p, counts.Keys);
    if u :| Upstream(rules, counts.Keys, u, service) && !AgreeOn(rules, counts, u) {
      var q :| WalkWithin(rules, counts.Keys, q) && |q| >= 2 && q[0] == u && q[|q| - 1] == service;
      WalksJoin(rules, counts.Keys, q, p);
      service := FirstDisagreement(rules, counts, q[..|q| - 1] + p);
    }
  }

  lemma UnsettledDeadlocks(rules: seq<Rule>, s: State, times: seq<int>, next: int) returns (service: string)
    requires !Cyclic(RuleEdges(rules)) && KeysByTarget(rules)
    requires Spaced(rules, s, times + [next]) && |times| + 1 >= |s.counts.Keys|
    requires Pending(rules, Rounds(rules, s, times).counts)
    ensures Deadlocked(rules, Rounds(rules, s, times).counts, service)
  {
    var counts := Rounds(rules, s, times).counts;
    CascadesSettle(rules, s, times, next);
    var t :| t in counts && !AgreeOn(rules, counts, t);
    assert WalkWithin(rules, counts.Keys, [t]);
    service := FirstDisagreement(rules, counts, [t]);
    forall r | r in rules && Upstream(rules, counts.Keys, r.target, service)
      ensures !Wants(r, counts)
    {
      forall u | Upstream(rules, counts.Keys, u, r.target)
        ensures AgreeOn(rules, counts, u)
      {
        UpstreamIsTransitive(rules, counts.Keys, u, r.target, service);
      }
      AgreedSettles(rules, s, times, next, r);
    }
  }

  // ---- Instance counts stay non-negative ----

  lemma {:induction false} RoundKeepsSnapshot(rules: seq<Rule>, services: set<string>, s: State, now: int)
    requires Snapshot(services, s.counts) && forall r :: r in rules ==> ValidRule(r)
    ensures Snapshot(services, NextRound(rules, s, now).counts)
  {
    if rules != [] {
      var before, r := rules[..|rules| - 1], rules[|rules| - 1];
      assert rules == before + [r] && r in rules;
      RoundKeepsSnapshot(before, services, s, now);
      RoundStep(before, r, s, now);
      if Wants(r, s.counts) {
        TargetInRange(r, s.counts[r.trigger]);
      }
    }
  }

  lemma {:induction false} RoundsKeepSnapshot(rules: seq<Rule>, services: set<string>, s: State, times: seq<int>)
    requires Snapshot(services, s.counts) && forall r :: r in rules ==> ValidRule(r)
    ensures Snapshot(services, Rounds(rules, s, times).counts)
  {
    if times != [] {
      var before := times[..|times| - 1];
      RoundsKeepSnapshot(rules, services, s, before);
      RoundKeepsSnapshot(rules, services, Rounds(rules, s, before), times[|times| - 1]);
    }
  }

  // ---- Rounds that are far enough apart ----

  function LongestDelay(rules: seq<Rule>): int {
    if rules == [] then 0 else Max(LongestDelay(rules[1..]), rules[0].delay)
  }

  lemma {:induction false} LongestIsLongest(rules: seq<Rule>)
    ensures LongestDelay(rules) >= 0 && forall r :: r in rules ==> r.delay <= LongestDelay(rules)
  {
    if rules != [] {
      LongestIsLongest(rules[1..]);
    }
  }

  lemma {:induction false} SpacedTimes(rules: seq<Rule>, s: State, n: nat) returns (times: seq<int>)
    requires s.executions == map[]
    ensures |times| == n && Spaced(rules, s, times)
  {
    if n == 0 {
      times := [];
    } else {
      times := SpacedTimes(rules, s, n - 1);
      LongestIsLongest(rules);
      times := times + [if n == 1 then 0 else times[n - 2] + LongestDelay(rules)];
    }
  }

  /** Valid acyclic rules settle from every start exactly if no snapshot of the services is a deadlock. */
  lemma AlwaysSettleIff(rules: seq<Rule>, services: set<string>)
    requires !Cyclic(RuleEdges(rules)) && KeysByTarget(rules) && forall r :: r in rules ==> ValidRule(r)
    ensures AlwaysSettle(rules, services) <==>
              forall counts, service :: Snapshot(services, counts) ==> !Deadlocked(rules, counts, service)
  {
    forall counts, service | Snapshot(services, counts) && Deadlocked(rules, counts, service)
      ensures !AlwaysSettle(rules, services)
    {
      var s := State(counts, map[]);
      var all := SpacedTimes(rules, s, |services| + 1);
      var times, next := all[..|services|], all[|services|];
      assert times + [next] == all;
      DeadlockPends(rules, s, times, service);
    }
    if !AlwaysSettle(rules, services) {
      var s: State, times, next :|
        && Snapshot(services, s.counts) && Spaced(rules, s, times + [next]) && |times| + 1 >= |services|
        && Pending(rules, Rounds(rules, s, times).counts);
      var service := UnsettledDeadlocks(rules, s, times, next);
      RoundsKeepSnapshot(rules, services, s, times);
      assert Deadlocked(rules, Rounds(rules, s, times).counts, service);
    }
  }
}
