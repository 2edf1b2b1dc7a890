/** When cascade rules decide over a whole history of evaluations, on any snapshots and with any rules at each:
    said in terms of the decisions made, not of the record the manager keeps of them. */
module CascadeHistory {
  import opened CascadeRules
  import opened CascadeRounds
  import opened Collections

  datatype Evaluation = Evaluation(rules: seq<Rule>, counts: map<string, int>, now: int)

  /** The manager's record after some evaluations. */
  function RecordAfter(evals: seq<Evaluation>): map<string, int> {
    if evals == [] then map[]
    else
      var e := evals[|evals| - 1];
      Evaluate(e.rules, e.counts, RecordAfter(evals[..|evals| - 1]), e.now).executions
  }

  /** Evaluation k up to its i-th rule. */
  function Partial(evals: seq<Evaluation>, k: nat, i: nat): Round
    requires k < |evals| && i <= |evals[k].rules|
  {
    Evaluate(evals[k].rules[..i], evals[k].counts, RecordAfter(evals[..k]), evals[k].now)
  }

  /** The i-th rule of evaluation k made a decision: there is one more after it than before. */
  predicate Decided(evals: seq<Evaluation>, k: nat, i: nat)
    requires k < |evals| && i < |evals[k].rules|
  {
    |Partial(evals, k, i + 1).decisions| > |Partial(evals, k, i).decisions|
  }

  /** The time of the last decision by a rule for this pair of services, before the i-th rule of
      evaluation k. */
  function LastDecision(evals: seq<Evaluation>, k: nat, i: nat, key: string): Option<int>
    requires k < |evals| && i <= |evals[k].rules|
    decreases k, i
  {
    if i > 0 then
      var r := evals[k].rules[i - 1];
      if Decided(evals, k, i - 1) && r.trigger + "->" + r.target == key then Some(evals[k].now)
      else LastDecision(evals, k, i - 1, key)
    else if k > 0 then LastDecision(evals, k - 1, |evals[k - 1].rules|, key)
    else None
  }

  /** The rule's trigger is there and fires, its target is there and has another count than the rule asks
      for. */
  predicate Calls(r: Rule, counts: map<string, int>) {
    && r.trigger in counts && ShouldTrigger(r, counts[r.trigger])
    && r.target in counts && TargetInstances(r, counts[r.trigger]) != counts[r.target]
  }

  lemma PartialStep(evals: seq<Evaluation>, k: nat, i: nat)
    requires k < |evals| && i < |evals[k].rules|
    ensures var e := evals[k];
            var r, before, after := e.rules[i], Partial(evals, k, i), Partial(evals, k, i + 1);
            if Calls(r, e.counts) && !InCooldown(before.executions, r, e.now) then
              var wanted, current := TargetInstances(r, e.counts[r.trigger]), e.counts[r.target];
              && after.decisions == before.decisions
                   + [Decision(r.target, if wanted > current then ScaleOut else ScaleIn, current, wanted)]
              && after.executions == before.executions[r.trigger + "->" + r.target := e.now]
            else after == before
  {
    assert evals[k].rules[..i + 1][..i] == evals[k].rules[..i];
  }

  /** The record holds exactly the last decision for every pair. */
  lemma {:induction false} RecordIsLast(evals: seq<Evaluation>, k: nat, i: nat, key: string)
    requires k < |evals| && i <= |evals[k].rules|
    ensures var record, last := Partial(evals, k, i).executions, LastDecision(evals, k, i, key);
            if last.Some? then key in record && record[key] == last.value else key !in record
    decreases k, i
  {
    if i > 0 {
      PartialStep(evals, k, i - 1);
      RecordIsLast(evals, k, i - 1, key);
    } else if k > 0 {
      RecordIsLast(evals, k - 1, |evals[k - 1].rules|, key);
      WholeEvaluation(evals, k - 1);
    }
  }

  lemma WholeEvaluation(evals: seq<Evaluation>, k: nat)
    requires k < |evals|
    ensures RecordAfter(evals[..k + 1]) == Partial(evals, k, |evals[k].rules|).executions
  {
    assert evals[..k + 1][..k] == evals[..k] && evals[..k + 1][k] == evals[k];
    assert evals[k].rules[..|evals[k].rules|] == evals[k].rules;
  }

  /** A rule decides exactly if it calls for a change and the last decision for its pair of services, in
      this evaluation or an earlier one, is at least its delay ago; and this is what it decides. */
  lemma DecidedIff(evals: seq<Evaluation>, k: nat, i: nat)
    requires k < |evals| && i < |evals[k].rules|
    ensures var e := evals[k];
            var r := e.rules[i];
            var last := LastDecision(evals, k, i, r.trigger + "->" + r.target);
            && (Decided(evals, k, i) <==> Calls(r, e.counts) && (last.Some? ==> e.now - last.value >= r.delay))
            && (Decided(evals, k, i) ==>
                  var wanted, current := TargetInstances(r, e.counts[r.trigger]), e.counts[r.target];
                  Partial(evals, k, i + 1).decisions == Partial(evals, k, i).decisions
                    + [Decision(r.target, if wanted > current then ScaleOut else ScaleIn, current, wanted)])
            && (!Decided(evals, k, i) ==> Partial(evals, k, i + 1) == Partial(evals, k, i))
  {
    var r := evals[k].rules[i];
    PartialStep(evals, k, i);
    RecordIsLast(evals, k, i, r.trigger + "->" + r.target);
  }

  /** Some rule of this pair decided in evaluation k. */
  ghost predicate DecidedFor(evals: seq<Evaluation>, k: nat, key: string)
    requires k < |evals|
  {
    exists i :: 0 <= i < |evals[k].rules| && Decided(evals, k, i) && KeyAt(evals, k, i) == key
  }

  function KeyAt(evals: seq<Evaluation>, k: nat, i: nat): string
    requires k < |evals| && i < |evals[k].rules|
  {
    evals[k].rules[i].trigger + "->" + evals[k].rules[i].target
  }

  lemma {:induction false} LastInEvaluation(evals: seq<Evaluation>, k: nat, i: nat, key: string)
    requires k < |evals| && i <= |evals[k].rules|
    ensures LastDecision(evals, k, i, key)
            == if exists j :: 0 <= j < i && Decided(evals, k, j) && KeyAt(evals, k, j) == key then Some(evals[k].now)
               else LastDecision(evals, k, 0, key)
    decreases i
  {
    if i > 0 {
      LastInEvaluation(evals, k, i - 1, key);
    }
  }

  /** After an evaluation a pair is recorded with the time of that evaluation if one of its rules decided in
      it, and otherwise as it was before. */
  lemma DecisionsAreRecorded(evals: seq<Evaluation>, k: nat, key: string)
    requires k < |evals|
    ensures var before, after := RecordAfter(evals[..k]), RecordAfter(evals[..k + 1]);
            if DecidedFor(evals, k, key) then key in after && after[key] == evals[k].now
            else (key in after <==> key in before) && (key in after ==> after[key] == before[key])
  {
    var n := |evals[k].rules|;
    WholeEvaluation(evals, k);
    RecordIsLast(evals, k, n, key);
    RecordIsLast(evals, k, 0, key);
    LastInEvaluation(evals, k, n, key);
    if DecidedFor(evals, k, key) {
      var i :| 0 <= i < n && Decided(evals, k, i) && KeyAt(evals, k, i) == key;
    }
  }

  ghost predicate ClockAdvances(evals: seq<Evaluation>) {
    forall j, k :: 0 <= j < k < |evals| ==> evals[j].now <= evals[k].now
  }

  lemma {:induction false} LastIsNotEarlier(evals: seq<Evaluation>, j: nat, k: nat, i: nat, key: string)
    requires j < k < |evals| && i <= |evals[k].rules| && ClockAdvances(evals) && DecidedFor(evals, j, key)
    ensures var last := LastDecision(evals, k, i, key); last.Some? && last.value >= evals[j].now
    decreases k, i
  {
    if i > 0 {
      LastIsNotEarlier(evals, j, k, i - 1, key);
    } else if k > j + 1 {
      LastIsNotEarlier(evals, j, k - 1, |evals[k - 1].rules|, key);
    } else {
      LastInEvaluation(evals, j, |evals[j].rules|, key);
    }
  }

  /** With a clock that never goes back, two decisions for one pair of services in different evaluations are
      at least the later rule's delay apart. */
  lemma DecisionsAreSpaced(evals: seq<Evaluation>, j: nat, a: nat, k: nat, b: nat)
    requires ClockAdvances(evals) && j < k < |evals| && a < |evals[j].rules| && b < |evals[k].rules|
    requires Decided(evals, j, a) && Decided(evals, k, b) && KeyAt(evals, j, a) == KeyAt(evals, k, b)
    ensures evals[k].now - evals[j].now >= evals[k].rules[b].delay
  {
    LastIsNotEarlier(evals, j, k, b, KeyAt(evals, k, b));
    DecidedIff(evals, k, b);
  }
}
