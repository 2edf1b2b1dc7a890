/** The cascade rule manager. Every method keeps `Valid`: the stored rules are valid, sorted by
    priority and free of cycles. */
module CascadeManager {
  import opened CascadeRules
  import opened CascadeRounds
  import opened CascadeChain
  import opened CycleSearch
  import opened Graph

  /** The adjacency list hasCircularDependency builds, rule by rule. */
  function Dependencies(rules: seq<Rule>): map<string, seq<string>> {
    if rules == [] then map[]
    else AddDependency(Dependencies(rules[..|rules| - 1]), rules[|rules| - 1])
  }

  function AddDependency(deps: map<string, seq<string>>, r: Rule): map<string, seq<string>> {
    deps[r.trigger := (if r.trigger in deps then deps[r.trigger] else []) + [r.target]]
  }

  lemma {:induction false} DependenciesAreRules(rules: seq<Rule>)
    ensures EdgesOf(Dependencies(rules)) == RuleEdges(rules)
  {
    if rules != [] {
      var before, r := rules[..|rules| - 1], rules[|rules| - 1];
      DependenciesAreRules(before);
      assert EdgesOf(Dependencies(rules)) == EdgesOf(Dependencies(before)) + {(r.trigger, r.target)};
      assert RuleEdges(rules) == RuleEdges(before) + {(r.trigger, r.target)} by {
        assert forall x :: x in rules <==> x in before || x == r;
      }
    }
  }

  ghost predicate Sound(rules: seq<Rule>) {
    && (forall r :: r in rules ==> ValidRule(r))
    && Sorted(rules)
    && !Cyclic(RuleEdges(rules))
  }

  class CascadeManager {
    var rules: seq<Rule>
    /** When each cascade last fired, by the key of its trigger and target. */
    var executions: map<string, int>

    ghost predicate Valid()
      reads this
    {
      Sound(rules)
    }

    constructor ()
      ensures Valid() && rules == [] && executions == map[]
    {
      rules, executions := [], map[];
      if Cyclic(RuleEdges([])) {
        CyclesHaveEdges(RuleEdges([]));
      }
    }

    /** True exactly when the stored rules together with the new one contain a directed cycle. */
    method HasCircularDependency(newRule: Rule) returns (found: bool)
      ensures found <==> Cyclic(RuleEdges(rules + [newRule]))
    {
      var deps: map<string, seq<string>> := map[];
      for i := 0 to |rules|
        invariant deps == Dependencies(rules[..i])
      {
        assert rules[..i + 1][..i] == rules[..i];
        deps := AddDependency(deps, rules[i]);
      }
      assert rules[..|rules|] == rules && (rules + [newRule])[..|rules|] == rules;
      deps := AddDependency(deps, newRule);
      DependenciesAreRules(rules + [newRule]);
      found := FindCycle(deps);
    }

    /** Bubble sort, higher priority first. */
    method SortRulesByPriority()
      modifies this`rules
      ensures Sorted(rules) && StablePermutation(rules, old(rules)) && |rules| == |old(rules)|
    {
      var n := |rules|;
      var i := 0;
      while i < n - 1
        invariant 0 <= i <= n && |rules| == n && (n > 0 ==> i < n)
        invariant StablePermutation(rules, old(rules))
        invariant forall a, b :: 0 <= a < b < n && n - i <= b ==> rules[a].priority >= rules[b].priority
      {
        var j := 0;
        while j < n - i - 1
          invariant 0 <= j <= n - i - 1 && |rules| == n
          invariant StablePermutation(rules, old(rules))
          invariant forall a, b :: 0 <= a < b < n && n - i <= b ==> rules[a].priority >= rules[b].priority
          invariant forall a :: 0 <= a < j ==> rules[a].priority >= rules[j].priority
        {
          if rules[j].priority < rules[j + 1].priority {
            SwapIsStable(rules, j);
            rules := rules[j := rules[j + 1]][j + 1 := rules[j]];
          }
          j := j + 1;
        }
        i := i + 1;
      }
    }

    /** A rule is stored exactly when it is valid and closes no cycle; a rejected rule changes
        nothing. The new rule goes behind the stored rules of its own priority. */
    method AddRule(rule: Rule) returns (outcome: Outcome)
      requires Valid()
      modifies this`rules
      ensures Valid()
      ensures outcome == if !ValidRule(rule) then Invalid
                         else if Cyclic(RuleEdges(old(rules) + [rule])) then Circular
                         else Accepted
      ensures if outcome.Accepted? then StablePermutation(rules, old(rules) + [rule]) else rules == old(rules)
      ensures outcome.Invalid? <==>
                || rule.trigger == "" || rule.target == "" || rule.trigger == rule.target || rule.ratio <= 0.0
                || rule.minTarget < 0 || (rule.maxTarget > 0 && rule.maxTarget < rule.minTarget)
      ensures forall i, j :: 0 <= i < j < |rules| ==> rules[i].priority >= rules[j].priority
    {
      if !ValidRule(rule) {
        return Invalid;
      }
      var circular := HasCircularDependency(rule);
      if circular {
        return Circular;
      }
      rules := rules + [rule];
      SortRulesByPriority();
      StableKeepsRules(rules, old(rules) + [rule]);
      return Accepted;
    }

    method RemoveRule(trigger: string, target: string) returns (outcome: Outcome)
      requires Valid()
      modifies this`rules
      ensures Valid()
      ensures outcome == if exists r :: r in old(rules) && Matches(r, trigger, target) then Accepted else NotFound
      ensures rules == Without(old(rules), trigger, target)
    {
      var newRules: seq<Rule>, found := [], false;
      for i := 0 to |rules|
        invariant newRules == Without(rules[..i], trigger, target)
        invariant found <==> exists r :: r in rules[..i] && Matches(r, trigger, target)
        invariant !found ==> newRules == rules[..i]
      {
        assert rules[..i + 1] == rules[..i] + [rules[i]];
        if Matches(rules[i], trigger, target) {
          found := true;
        } else {
          newRules := newRules + [rules[i]];
        }
      }
      assert rules[..|rules|] == rules;
      if !found {
        return NotFound;
      }
      WithoutStaysSound(rules, trigger, target);
      rules := newRules;
      return Accepted;
    }

    /** Evaluates every rule on one snapshot of instance counts. */
    method EvaluateCascades(counts: map<string, int>, now: int) returns (decisions: seq<Decision>)
      modifies this`executions
      ensures Round(decisions, executions) == Evaluate(rules, counts, old(executions), now)
    {
      decisions := [];
      for i := 0 to |rules|
        invariant Round(decisions, executions) == Evaluate(rules[..i], counts, old(executions), now)
      {
        var rule := rules[i];
        assert rules[..i + 1][..i] == rules[..i];
        if rule.trigger !in counts || !ShouldTrigger(rule, counts[rule.trigger]) {
          continue;
        }
        if InCooldown(executions, rule, now) {
          continue;
        }
        var targetCount := TargetInstances(rule, counts[rule.trigger]);
        if rule.target !in counts {
          continue;
        }
        if targetCount != counts[rule.target] {
          var action := if targetCount > counts[rule.target] then ScaleOut else ScaleIn;
          decisions := decisions + [Decision(rule.target, action, counts[rule.target], targetCount)];
          executions := executions[Key(rule) := now];
        }
      }
      assert rules[..|rules|] == rules;
    }

    /** The chain of cascades from a service: what a finished search lists, whatever the stored rules.
        Where no service is the target of two rules that is exactly the enabled rules. */
    method GetCascadeChain(service: string, instances: int) returns (chain: seq<Rule>)
      requires Valid()
      ensures exists t ::
                && IsChain(rules, service, instances, chain, t)
                && (forall i :: i in t.listed ==> Enabled(rules, service, instances, i))
                && (OneRulePerTarget(rules) ==>
                      forall i: nat :: Enabled(rules, service, instances, i) ==> i in t.listed)
    {
      var finder := new Finder(rules, service, instances);
      finder.FindChain(service, instances);
      chain := finder.chain;
      ghost var q, t := Query(rules, service, instances), finder.trace;
      assert IsChain(rules, service, instances, chain, t);
      forall i | i in t.listed
        ensures Enabled(rules, service, instances, i)
      {
        var k :| 0 <= k < |t.listed| && t.listed[k] == i;
        var path := ListedIsDiscovered(q, t, k);
      }
      forall i: nat | OneRulePerTarget(rules) && Enabled(rules, service, instances, i)
        ensures i in t.listed
      {
        var path :| Discovers(rules, service, instances, path, i);
        DiscoveredIsListed(q, t, path, i);
      }
    }
  }

  /** A chain lists rules by their positions, none twice. Each fires at the count recorded for its
      trigger, which is the start service or was reached with that count by an earlier listed rule; and
      every rule of the start service or of a listed rule's target that fires at the recorded count is
      listed too. */
  ghost predicate IsChain(rules: seq<Rule>, service: string, instances: int, chain: seq<Rule>, t: Trace) {
    && |t.listed| == |chain|
    && (forall k :: 0 <= k < |chain| ==> t.listed[k] < |rules| && chain[k] == rules[t.listed[k]])
    && service in t.counts && t.counts[service] == instances
    && Traced(Query(rules, service, instances), t)
    && forall s :: s in t.counts ==> Complete(rules, t, s)
  }

  /** The chain is empty exactly if no rule of the start service fires. */
  lemma EmptyChain(rules: seq<Rule>, service: string, instances: int, chain: seq<Rule>, t: Trace)
    requires IsChain(rules, service, instances, chain, t)
    ensures chain == [] <==> forall r :: r in rules && r.trigger == service ==> !ShouldTrigger(r, instances)
  {
    if chain != [] {
      assert Justified(Query(rules, service, instances), t, 0);
      assert rules[t.listed[0]] in rules;
    }
    forall r | chain == [] && r in rules && r.trigger == service
      ensures !ShouldTrigger(r, instances)
    {
      var i :| 0 <= i < |rules| && rules[i] == r;
      assert Complete(rules, t, service);
      assert Fires(rules, t, i) ==> i in t.listed;
    }
  }

  lemma WithoutStaysSound(rules: seq<Rule>, trigger: string, target: string)
    requires Sound(rules)
    ensures Sound(Without(rules, trigger, target))
  {
    WithoutStaysSorted(rules, trigger, target);
    forall r | r in Without(rules, trigger, target)
      ensures r in rules
    {
      WithoutMembers(rules, trigger, target, r);
    }
    FewerEdgesFewerCycles(RuleEdges(rules), RuleEdges(Without(rules, trigger, target)));
  }
}
