/** Cascade rules: validation, when a rule fires and what it asks for. */
module CascadeRules {
  import opened Arith
  import opened Graph

  /** Delays and times are in nanoseconds; a float ratio is a real. */
  datatype Rule = Rule(
    trigger: string, threshold: int, condition: string, target: string,
    ratio: real, minTarget: int, maxTarget: int, delay: int, priority: int)

  datatype Outcome = Accepted | Invalid | Circular | NotFound

  /** The checks of validateRule. */
  predicate ValidRule(r: Rule) {
    && r.trigger != "" && r.target != "" && r.trigger != r.target
    && r.ratio > 0.0 && r.minTarget >= 0
    && (r.maxTarget > 0 ==> r.maxTarget >= r.minTarget)
  }

  /** An unknown condition counts as ">=". */
  predicate ShouldTrigger(r: Rule, current: int) {
    if r.condition == "<=" then current <= r.threshold
    else if r.condition == "==" then current == r.threshold
    else if r.condition == ">" then current > r.threshold
    else if r.condition == "<" then current < r.threshold
    else current >= r.threshold
  }

  /** A maximum of zero or less means no maximum. */
  function TargetInstances(r: Rule, triggerInstances: int): int {
    var target := Trunc(triggerInstances as real * r.ratio);
    var atLeast := Max(target, r.minTarget);
    if r.maxTarget > 0 then Min(atLeast, r.maxTarget) else atLeast
  }

  /** When a rule fires, by its condition. */
  lemma ConditionMeans(r: Rule, n: int)
    ensures r.condition == "<=" ==> (ShouldTrigger(r, n) <==> n <= r.threshold)
    ensures r.condition == "<" ==> (ShouldTrigger(r, n) <==> n < r.threshold)
    ensures r.condition == "==" ==> (ShouldTrigger(r, n) <==> n == r.threshold)
    ensures r.condition == ">" ==> (ShouldTrigger(r, n) <==> n > r.threshold)
    ensures r.condition == ">=" ==> (ShouldTrigger(r, n) <==> n >= r.threshold)
    ensures r.condition !in {"<=", "<", "==", ">", ">="} ==> (ShouldTrigger(r, n) <==> n >= r.threshold)
  {
  }

  /** What a rule asks for: the count times the ratio without its fraction, but at least the minimum, and
      at most a positive maximum. */
  lemma TargetMeans(r: Rule, n: int, t: int)
    requires Truncates(n as real * r.ratio, t)
    ensures var raised := if t < r.minTarget then r.minTarget else t;
            TargetInstances(r, n) == if r.maxTarget > 0 && raised > r.maxTarget then r.maxTarget else raised
  {
    TruncIsTruncation(n as real * r.ratio, t);
  }

  /** A valid rule never asks for a negative number of instances, nor for more than its maximum. */
  lemma TargetInRange(r: Rule, triggerInstances: int)
    requires ValidRule(r)
    ensures r.minTarget <= TargetInstances(r, triggerInstances)
    ensures r.maxTarget > 0 ==> TargetInstances(r, triggerInstances) <= r.maxTarget
  {
  }

  ghost function RuleEdges(rules: seq<Rule>): Edges {
    set r | r in rules :: (r.trigger, r.target)
  }

  /** The rules of one priority, in order. */
  function OfPriority(rules: seq<Rule>, p: int): seq<Rule> {
    if rules == [] then []
    else if rules[0].priority == p then [rules[0]] + OfPriority(rules[1..], p)
    else OfPriority(rules[1..], p)
  }

  ghost predicate Sorted(rules: seq<Rule>) {
    forall i, j :: 0 <= i < j < |rules| ==> rules[i].priority >= rules[j].priority
  }

  /** The same rules, those of equal priority in the same order. */
  ghost predicate StablePermutation(a: seq<Rule>, b: seq<Rule>) {
    forall p :: OfPriority(a, p) == OfPriority(b, p)
  }

  lemma {:induction false} OfPriorityAppend(a: seq<Rule>, b: seq<Rule>, p: int)
    ensures OfPriority(a + b, p) == OfPriority(a, p) + OfPriority(b, p)
  {
    if a == [] {
      assert a + b == b;
    } else {
      OfPriorityAppend(a[1..], b, p);
      assert (a + b)[1..] == a[1..] + b;
    }
  }

  /** Swapping neighbours of different priority keeps the order within each priority. */
  lemma SwapIsStable(rules: seq<Rule>, j: nat)
    requires j + 1 < |rules| && rules[j].priority != rules[j + 1].priority
    ensures StablePermutation(rules[j := rules[j + 1]][j + 1 := rules[j]], rules)
  {
    var x, y := rules[j], rules[j + 1];
    var left, right := rules[..j], rules[j + 2..];
    forall p
      ensures OfPriority(rules[j := y][j + 1 := x], p) == OfPriority(rules, p)
    {
      assert rules == left + ([x, y] + right);
      assert rules[j := y][j + 1 := x] == left + ([y, x] + right);
      OfPriorityAppend(left, [x, y] + right, p);
      OfPriorityAppend(left, [y, x] + right, p);
      OfPriorityAppend([x, y], right, p);
      OfPriorityAppend([y, x], right, p);
      assert [x, y][1..] == [y] && [y, x][1..] == [x];
    }
  }

  lemma {:induction false} OfPriorityMembers(rules: seq<Rule>, p: int, r: Rule)
    ensures r in OfPriority(rules, p) <==> r in rules && r.priority == p
  {
    if rules != [] {
      OfPriorityMembers(rules[1..], p, r);
      assert r in rules <==> r == rules[0] || r in rules[1..];
    }
  }

  /** A stable permutation has the same rules and so the same graph. */
  lemma StableKeepsRules(a: seq<Rule>, b: seq<Rule>)
    requires StablePermutation(a, b)
    ensures forall r :: r in a <==> r in b
    ensures RuleEdges(a) == RuleEdges(b)
  {
    forall r
      ensures r in a <==> r in b
    {
      OfPriorityMembers(a, r.priority, r);
      OfPriorityMembers(b, r.priority, r);
    }
  }

  lemma {:induction false} FirstOfPriority(rules: seq<Rule>)
    requires rules != [] && Sorted(rules)
    ensures forall p :: p > rules[0].priority ==> OfPriority(rules, p) == []
  {
    forall p | p > rules[0].priority
      ensures OfPriority(rules, p) == []
    {
      if OfPriority(rules, p) != [] {
        OfPriorityMembers(rules, p, OfPriority(rules, p)[0]);
      }
    }
  }

  /** Sorting stably has only one answer, so the contract of the sort determines its result. */
  lemma {:induction false} StableSortIsUnique(a: seq<Rule>, b: seq<Rule>)
    requires Sorted(a) && Sorted(b) && StablePermutation(a, b)
    ensures a == b
  {
    StableKeepsRules(a, b);
    assert (a != [] ==> a[0] in b) && (b != [] ==> b[0] in a);
    if a != [] {
      FirstOfPriority(a);
      FirstOfPriority(b);
      assert OfPriority(a, a[0].priority) == OfPriority(b, a[0].priority);
      assert OfPriority(a, b[0].priority) == OfPriority(b, b[0].priority);
      assert OfPriority(a, a[0].priority)[0] == a[0] && OfPriority(b, b[0].priority)[0] == b[0];
      assert a[0].priority == b[0].priority;
      forall p
        ensures OfPriority(a[1..], p) == OfPriority(b[1..], p)
      {
        assert OfPriority(a, p) == OfPriority(b, p);
        assert a[0].priority == p ==> OfPriority(a[1..], p) == OfPriority(a, p)[1..];
        assert b[0].priority == p ==> OfPriority(b[1..], p) == OfPriority(b, p)[1..];
      }
      StableSortIsUnique(a[1..], b[1..]);
    }
  }

  // ---- Removing rules ----

  predicate Matches(r: Rule, trigger: string, target: string) {
    r.trigger == trigger && r.target == target
  }

  function Without(rules: seq<Rule>, trigger: string, target: string): seq<Rule> {
    if rules == [] then []
    else
      var last := rules[|rules| - 1];
      Without(rules[..|rules| - 1], trigger, target) + if Matches(last, trigger, target) then [] else [last]
  }

  /** Removal leaves exactly the rules that do not match. */
  lemma {:induction false} WithoutMembers(rules: seq<Rule>, trigger: string, target: string, r: Rule)
    ensures r in Without(rules, trigger, target) <==> r in rules && !(r.trigger == trigger && r.target == target)
  {
    if rules != [] {
      WithoutMembers(rules[..|rules| - 1], trigger, target, r);
      assert r in rules <==> r in rules[..|rules| - 1] || r == rules[|rules| - 1];
    }
  }

  lemma {:induction false} WithoutStaysSorted(rules: seq<Rule>, trigger: string, target: string)
    requires Sorted(rules)
    ensures Sorted(Without(rules, trigger, target))
  {
    if rules != [] {
      var before, last := rules[..|rules| - 1], rules[|rules| - 1];
      WithoutStaysSorted(before, trigger, target);
      forall r | r in Without(before, trigger, target)
        ensures r.priority >= last.priority
      {
        WithoutMembers(before, trigger, target, r);
        assert exists i :: 0 <= i < |before| && rules[i] == r;
      }
    }
  }
}
