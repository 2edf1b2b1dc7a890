/** Walks and cycles in a finite directed graph of services. */
module Graph {

  type Edges = set<(string, string)>

  ghost predicate Walk(es: Edges, p: seq<string>) {
    p != [] && forall i :: 0 <= i < |p| - 1 ==> (p[i], p[i + 1]) in es
  }

  ghost predicate Cycle(es: Edges, p: seq<string>) {
    |p| >= 2 && Walk(es, p) && p[0] == p[|p| - 1]
  }

  ghost predicate OnCycle(es: Edges, v: string) {
    exists p :: Cycle(es, p) && p[0] == v
  }

  ghost predicate Cyclic(es: Edges) {
    exists p :: Cycle(es, p)
  }

  /** No edge leaves the set. */
  ghost predicate Closed(es: Edges, vs: set<string>) {
    forall e :: e in es && e.0 in vs ==> e.1 in vs
  }

  lemma {:induction false} WalkStaysInside(es: Edges, vs: set<string>, p: seq<string>, i: nat)
    requires Closed(es, vs) && Walk(es, p) && i < |p| && p[0] in vs
    ensures p[i] in vs
  {
    if i > 0 {
      WalkStaysInside(es, vs, p, i - 1);
      assert (p[i - 1], p[i]) in es;
    }
  }

  /** A node outside a closed set, all of whose successors are inside, is on no cycle. */
  lemma OutsideIsOnNoCycle(es: Edges, vs: set<string>, v: string)
    requires Closed(es, vs) && v !in vs
    requires forall e :: e in es && e.0 == v ==> e.1 in vs
    ensures !OnCycle(es, v)
  {
    forall p | Cycle(es, p) && p[0] == v
      ensures false
    {
      assert (p[0], p[1]) in es;
      assert Walk(es, p[1..]);
      WalkStaysInside(es, vs, p[1..], |p| - 2);
    }
  }

  lemma CyclesHaveEdges(es: Edges)
    requires Cyclic(es)
    ensures es != {}
  {
    var p :| Cycle(es, p);
    assert (p[0], p[1]) in es;
  }

  lemma CyclesContinue(es: Edges)
    requires Cyclic(es)
    ensures exists e, f :: e in es && f in es && e.1 == f.0
  {
    var p :| Cycle(es, p);
    var e, f := (p[0], p[1]), if |p| > 2 then (p[1], p[2]) else (p[0], p[1]);
    assert e in es && f in es && e.1 == f.0;
  }

  lemma FewerEdgesFewerCycles(es: Edges, fewer: Edges)
    requires fewer <= es && !Cyclic(es)
    ensures !Cyclic(fewer)
  {
    forall p | Cycle(fewer, p)
      ensures false
    {
      assert Cycle(es, p);
    }
  }
}
