/** Exploring the chain of cascades a service would set off. */
module CascadeChain {
  import opened CascadeRules
  import opened CascadeRounds
  import opened Graph

  /** The instance count a path of rule positions leads to, starting from `instances`. */
  function CountAfter(rules: seq<Rule>, instances: int, path: seq<nat>): int
    requires forall k :: 0 <= k < |path| ==> path[k] < |rules|
  {
    if path == [] then instances
    else TargetInstances(rules[path[|path| - 1]], CountAfter(rules, instances, path[..|path| - 1]))
  }

  /** Every rule of the path fires at the count the path leads to, and each starts where the one
      before ends; the path ends with rule i. */
  ghost predicate Discovers(rules: seq<Rule>, start: string, instances: int, path: seq<nat>, i: nat)
    decreases path
  {
    && path != [] && path[|path| - 1] == i && i < |rules|
    && (forall k :: 0 <= k < |path| ==> path[k] < |rules|)
    && var before := path[..|path| - 1];
    && ShouldTrigger(rules[i], CountAfter(rules, instances, before))
    && if before == [] then rules[i].trigger == start
       else Discovers(rules, start, instances, before, before[|before| - 1])
            && rules[before[|before| - 1]].target == rules[i].trigger
  }

  /** Rule i is enabled: some path of firing rules discovers it. */
  ghost predicate Enabled(rules: seq<Rule>, start: string, instances: int, i: nat) {
    exists path: seq<nat> :: Discovers(rules, start, instances, path, i)
  }

  // ---- The state of a search ----

  /** The listed rules, by their positions in order, and the count with which each visited service
      was first reached. */
  datatype Trace = Trace(listed: seq<nat>, counts: map<string, int>)

  /** Rule i starts at a visited service and fires at its count. */
  ghost predicate Fires(rules: seq<Rule>, t: Trace, i: nat) {
    i < |rules| && rules[i].trigger in t.counts && ShouldTrigger(rules[i], t.counts[rules[i].trigger])
  }

  /** The k-th listed rule leads to this service with this count. */
  ghost predicate Led(rules: seq<Rule>, t: Trace, k: nat, svc: string, count: int) {
    && k < |t.listed| && Fires(rules, t, t.listed[k]) && rules[t.listed[k]].target == svc
    && count == TargetInstances(rules[t.listed[k]], t.counts[rules[t.listed[k]].trigger])
  }

  /** A call of GetCascadeChain. */
  datatype Query = Query(rules: seq<Rule>, start: string, instances: int)

  /** A service is reached as the start, or from one of the first n listed rules. */
  ghost predicate Reached(q: Query, t: Trace, svc: string, count: int, n: nat) {
    (svc == q.start && count == q.instances) || exists k: nat :: k < n && Led(q.rules, t, k, svc, count)
  }

  /** The k-th listed rule fires, from a service reached before it was listed. */
  ghost predicate Justified(q: Query, t: Trace, k: nat) {
    && k < |t.listed| && Fires(q.rules, t, t.listed[k])
    && Reached(q, t, q.rules[t.listed[k]].trigger, t.counts[q.rules[t.listed[k]].trigger], k)
  }

  ghost predicate Found(q: Query, t: Trace, svc: string) {
    svc in t.counts && Reached(q, t, svc, t.counts[svc], |t.listed|)
  }

  /** No rule is listed twice, every listed rule is justified and every visited service was found. */
  ghost predicate Traced(q: Query, t: Trace) {
    && (forall j, k :: 0 <= j < k < |t.listed| ==> t.listed[j] != t.listed[k])
    && (forall k: nat :: k < |t.listed| ==> Justified(q, t, k))
    && (forall s :: s in t.counts ==> Found(q, t, s))
  }

  /** Every rule of the service that fires is listed, and its target was visited. */
  ghost predicate Complete(rules: seq<Rule>, t: Trace, svc: string) {
    forall i: nat :: Fires(rules, t, i) && rules[i].trigger == svc ==> i in t.listed && rules[i].target in t.counts
  }

  ghost predicate Grew(t: Trace, t': Trace) {
    && t.listed <= t'.listed
    && forall s :: s in t.counts ==> s in t'.counts && t'.counts[s] == t.counts[s]
  }

  lemma GrowthKeepsReached(q: Query, t: Trace, t': Trace, svc: string, count: int, n: nat)
    requires Grew(t, t') && Reached(q, t, svc, count, n)
    ensures Reached(q, t', svc, count, n)
  {
    if !(svc == q.start && count == q.instances) {
      var k: nat :| k < n && Led(q.rules, t, k, svc, count);
      assert Led(q.rules, t', k, svc, count);
    }
  }

  /** What a finished call of findChain adds to a trace. */
  ghost predicate Explored(rules: seq<Rule>, t: Trace, t': Trace) {
    && Grew(t, t')
    && (forall k :: |t.listed| <= k < |t'.listed| ==>
          t'.listed[k] < |rules| && rules[t'.listed[k]].trigger !in t.counts)
    && (forall s :: s in t'.counts && s !in t.counts ==> Complete(rules, t', s))
  }

  /** A call for `svc` that entered with trace `t` and has gone through the first n rules. */
  ghost predicate Exploring(rules: seq<Rule>, t: Trace, t': Trace, svc: string, n: nat) {
    && n <= |rules| && svc !in t.counts && svc in t'.counts
    && Grew(t, t')
    && (forall k :: 0 <= k < |t'.listed| ==> t'.listed[k] < |rules|)
    && (forall k :: |t.listed| <= k < |t'.listed| ==> rules[t'.listed[k]].trigger !in t.counts)
    && (forall k :: 0 <= k < |t'.listed| && rules[t'.listed[k]].trigger == svc ==> t'.listed[k] < n)
    && (forall j: nat :: j < n && Fires(rules, t', j) && rules[j].trigger == svc ==>
          j in t'.listed && rules[j].target in t'.counts)
    && (forall s :: s in t'.counts && s !in t.counts && s != svc ==> Complete(rules, t', s))
  }

  lemma GrowthKeepsJustified(q: Query, t: Trace, t': Trace, k: nat)
    requires Grew(t, t') && Justified(q, t, k)
    ensures Justified(q, t', k)
  {
    var s := q.rules[t.listed[k]].trigger;
    GrowthKeepsReached(q, t, t', s, t.counts[s], k);
  }

  lemma GrowthKeepsFound(q: Query, t: Trace, t': Trace, svc: string)
    requires Grew(t, t') && Found(q, t, svc)
    ensures Found(q, t', svc)
  {
    GrowthKeepsReached(q, t, t', svc, t.counts[svc], |t.listed|);
    MoreIsReached(q, t', svc, t.counts[svc], |t.listed|, |t'.listed|);
  }

  lemma MoreIsReached(q: Query, t: Trace, svc: string, count: int, m: nat, n: nat)
    requires Reached(q, t, svc, count, m) && m <= n
    ensures Reached(q, t, svc, count, n)
  {
  }

  lemma EnterKeepsTraced(q: Query, t: Trace, svc: string, count: int)
    requires Traced(q, t) && svc !in t.counts && Reached(q, t, svc, count, |t.listed|)
    ensures Traced(q, t.(counts := t.counts[svc := count]))
  {
    var t' := t.(counts := t.counts[svc := count]);
    assert Grew(t, t');
    forall k: nat | k < |t'.listed|
      ensures Justified(q, t', k)
    {
      GrowthKeepsJustified(q, t, t', k);
    }
    GrowthKeepsReached(q, t, t', svc, count, |t.listed|);
    assert Found(q, t', svc);
    forall s | s in t.counts
      ensures Found(q, t', s)
    {
      GrowthKeepsFound(q, t, t', s);
    }
  }

  lemma AppendKeepsTraced(q: Query, t: Trace, i: nat)
    requires Traced(q, t) && Fires(q.rules, t, i) && i !in t.listed
    ensures var t' := t.(listed := t.listed + [i]);
            && Traced(q, t') && Grew(t, t')
            && Led(q.rules, t', |t.listed|, q.rules[i].target,
                   TargetInstances(q.rules[i], t.counts[q.rules[i].trigger]))
  {
    var t' := t.(listed := t.listed + [i]);
    var s := q.rules[i].trigger;
    assert Found(q, t, s);
    GrowthKeepsReached(q, t, t', s, t.counts[s], |t.listed|);
    forall k: nat | k < |t'.listed|
      ensures Justified(q, t', k)
    {
      if k < |t.listed| {
        GrowthKeepsJustified(q, t, t', k);
      }
    }
    forall s | s in t'.counts
      ensures Found(q, t', s)
    {
      GrowthKeepsFound(q, t, t', s);
    }
  }

  lemma EnterExplores(q: Query, t: Trace, svc: string, count: int)
    requires Traced(q, t) && svc !in t.counts
    ensures Exploring(q.rules, t, t.(counts := t.counts[svc := count]), svc, 0)
  {
    assert forall k: nat :: k < |t.listed| ==> Justified(q, t, k) && Fires(q.rules, t, t.listed[k]);
  }

  lemma GrowthKeepsComplete(rules: seq<Rule>, t: Trace, t': Trace, s: string)
    requires Grew(t, t') && s in t.counts && Complete(rules, t, s)
    ensures Complete(rules, t', s)
  {
  }

  /** Listing rule n and exploring its target. */
  lemma ListedStep(rules: seq<Rule>, t: Trace, t0: Trace, t1: Trace, svc: string, n: nat)
    requires Exploring(rules, t, t0, svc, n) && n < |rules| && rules[n].trigger == svc
    requires Explored(rules, t0.(listed := t0.listed + [n]), t1) && rules[n].target in t1.counts
    ensures Exploring(rules, t, t1, svc, n + 1)
  {
    var mid := t0.(listed := t0.listed + [n]);
    assert t1.listed[|t0.listed|] == n;
    assert forall k :: 0 <= k < |t0.listed| ==> t1.listed[k] == mid.listed[k] == t0.listed[k];
    forall s | s in t1.counts && s !in t.counts && s != svc
      ensures Complete(rules, t1, s)
    {
      if s in t0.counts {
        GrowthKeepsComplete(rules, t0, t1, s);
      }
    }
    forall j: nat | j < n + 1 && Fires(rules, t1, j) && rules[j].trigger == svc
      ensures j in t1.listed && rules[j].target in t1.counts
    {
      if j < n {
        assert Fires(rules, t0, j);
        var k :| 0 <= k < |t0.listed| && t0.listed[k] == j;
        assert t1.listed[k] == j;
      }
    }
  }

  lemma SkippedStep(rules: seq<Rule>, t: Trace, t': Trace, svc: string, n: nat)
    requires Exploring(rules, t, t', svc, n) && n < |rules|
    requires rules[n].trigger != svc || !ShouldTrigger(rules[n], t'.counts[svc])
    ensures Exploring(rules, t, t', svc, n + 1)
  {
  }

  lemma DoneStep(rules: seq<Rule>, t: Trace, t': Trace, svc: string)
    requires Exploring(rules, t, t', svc, |rules|)
    ensures Explored(rules, t, t')
  {
  }

  // ---- What a finished search lists ----

  lemma ExtendPath(q: Query, before: seq<nat>, j: nat, i: nat)
    requires Discovers(q.rules, q.start, q.instances, before, j) && i < |q.rules|
    requires q.rules[j].target == q.rules[i].trigger
    requires ShouldTrigger(q.rules[i], CountAfter(q.rules, q.instances, before))
    ensures var path := before + [i];
            Discovers(q.rules, q.start, q.instances, path, i) && path[..|path| - 1] == before
  {
    assert (before + [i])[..|before|] == before;
  }

  /** Every listed rule lies at the end of a discovery path, at the count recorded for its trigger. */
  lemma {:induction false} ListedIsDiscovered(q: Query, t: Trace, k: nat) returns (path: seq<nat>)
    requires Traced(q, t) && k < |t.listed|
    ensures Fires(q.rules, t, t.listed[k])
    ensures Discovers(q.rules, q.start, q.instances, path, t.listed[k])
    ensures CountAfter(q.rules, q.instances, path[..|path| - 1]) == t.counts[q.rules[t.listed[k]].trigger]
  {
    assert Justified(q, t, k);
    var i := t.listed[k];
    var s := q.rules[i].trigger;
    if s == q.start && t.counts[s] == q.instances {
      path := [i];
    } else {
      var j: nat :| j < k && Led(q.rules, t, j, s, t.counts[s]);
      var before := ListedIsDiscovered(q, t, j);
      ExtendPath(q, before, t.listed[j], i);
      path := before + [i];
    }
  }

  /** The services along a discovery path form a walk of the rule graph from the start. */
  lemma {:induction false} PathIsWalk(q: Query, path: seq<nat>, i: nat) returns (p: seq<string>)
    requires Discovers(q.rules, q.start, q.instances, path, i)
    ensures |p| >= 2 && Walk(RuleEdges(q.rules), p) && p[0] == q.start && p[|p| - 1] == q.rules[i].target
  {
    var before := path[..|path| - 1];
    assert (q.rules[i].trigger, q.rules[i].target) in RuleEdges(q.rules);
    if before == [] {
      p := [q.start, q.rules[i].target];
    } else {
      p := PathIsWalk(q, before, before[|before| - 1]);
      p := p + [q.rules[i].target];
    }
  }

  /** On acyclic rules with one rule per target, every rule at the end of a discovery path is listed:
      its trigger was reached in only one way. */
  lemma {:induction false} DiscoveredIsListed(q: Query, t: Trace, path: seq<nat>, i: nat)
    requires !Cyclic(RuleEdges(q.rules)) && OneRulePerTarget(q.rules)
    requires Traced(q, t) && q.start in t.counts && t.counts[q.start] == q.instances
    requires forall s :: s in t.counts ==> Complete(q.rules, t, s)
    requires Discovers(q.rules, q.start, q.instances, path, i)
    ensures Fires(q.rules, t, i) && i in t.listed
    ensures t.counts[q.rules[i].trigger] == CountAfter(q.rules, q.instances, path[..|path| - 1])
    decreases path
  {
    var before, s := path[..|path| - 1], q.rules[i].trigger;
    if before != [] {
      var j := before[|before| - 1];
      DiscoveredIsListed(q, t, before, j);
      assert Complete(q.rules, t, q.rules[j].trigger);
      assert Found(q, t, s);
      if s == q.start {
        var p := PathIsWalk(q, before, j);
        assert Cycle(RuleEdges(q.rules), p);
      }
      var k: nat :| k < |t.listed| && Led(q.rules, t, k, s, t.counts[s]);
      assert t.listed[k] == j;
    }
    assert Complete(q.rules, t, s);
  }

  class Finder {
    const rules: seq<Rule>
    ghost const query: Query
    var visited: set<string>
    var chain: seq<Rule>
    ghost var trace: Trace

    ghost predicate Valid()
      reads this
    {
      && query.rules == rules
      && visited == trace.counts.Keys
      && Traced(query, trace)
      && |chain| == |trace.listed|
      && forall k :: 0 <= k < |chain| ==> trace.listed[k] < |rules| && chain[k] == rules[trace.listed[k]]
    }

    /** Every service a search can visit. */
    ghost function Names(): set<string> {
      {query.start} + set r | r in rules :: r.target
    }

    constructor (rules: seq<Rule>, ghost start: string, ghost instances: int)
      ensures Valid() && query == Query(rules, start, instances) && trace == Trace([], map[])
    {
      this.rules, query := rules, Query(rules, start, instances);
      visited, chain, trace := {}, [], Trace([], map[]);
    }

    method FindChain(svc: string, count: int)
      requires Valid() && svc in Names() && Reached(query, trace, svc, count, |trace.listed|)
      modifies this
      ensures Valid() && Explored(rules, old(trace), trace) && svc in visited
      ensures svc !in old(visited) ==> trace.counts[svc] == count
      decreases Names() - visited, 0
    {
      if svc in visited {
        return;
      }
      Enter(svc, count);
      for i := 0 to |rules|
        invariant Valid() && old(visited) + {svc} <= visited && trace.counts[svc] == count
        invariant Exploring(rules, old(trace), trace, svc, i)
      {
        if rules[i].trigger == svc && ShouldTrigger(rules[i], count) {
          Follow(i, svc, count, old(trace));
        } else {
          SkippedStep(rules, old(trace), trace, svc, i);
        }
      }
      DoneStep(rules, old(trace), trace, svc);
    }

    /** Marks a service as visited. */
    method Enter(svc: string, count: int)
      requires Valid() && svc !in visited && Reached(query, trace, svc, count, |trace.listed|)
      modifies this
      ensures Valid() && visited == old(visited) + {svc} && trace.counts[svc] == count
      ensures Exploring(rules, old(trace), trace, svc, 0)
    {
      EnterKeepsTraced(query, trace, svc, count);
      EnterExplores(query, trace, svc, count);
      visited := visited + {svc};
      trace := trace.(counts := trace.counts[svc := count]);
    }

    /** The body of findChain's loop for a rule that fires. */
    method Follow(i: nat, svc: string, count: int, ghost entered: Trace)
      requires Valid() && i < |rules| && svc in visited && trace.counts[svc] == count
      requires rules[i].trigger == svc && ShouldTrigger(rules[i], count)
      requires Exploring(rules, entered, trace, svc, i)
      modifies this
      ensures Valid() && old(visited) <= visited && svc in visited && trace.counts[svc] == count
      ensures Exploring(rules, entered, trace, svc, i + 1)
      decreases Names() - visited, 1
    {
      AppendKeepsTraced(query, trace, i);
      chain := chain + [rules[i]];
      trace := trace.(listed := trace.listed + [i]);
      var targetCount := TargetInstances(rules[i], count);
      FindChain(rules[i].target, targetCount);
      ListedStep(rules, entered, old(trace), trace, svc, i);
    }
  }
}
