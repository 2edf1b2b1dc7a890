/** The depth-first search for a cycle, with its visited set and recursion stack. */
module CycleSearch {
  import opened Graph

  /** The graph of an adjacency list. */
  ghost function EdgesOf(deps: map<string, seq<string>>): Edges {
    set a, b | a in deps && b in deps[a] :: (a, b)
  }

  /** Every node mentioned by an adjacency list. */
  ghost function NodesOf(deps: map<string, seq<string>>): set<string> {
    deps.Keys + set a, b | a in deps && b in deps[a] :: b
  }

  class Search {
    const deps: map<string, seq<string>>
    /** The services marked true in the source's two maps. */
    var visited: set<string>
    var recStack: set<string>

    constructor (deps: map<string, seq<string>>)
      ensures this.deps == deps && visited == {} && recStack == {}
    {
      this.deps := deps;
      visited, recStack := {}, {};
    }

    /** Services whose search has returned. */
    ghost function Finished(): set<string>
      reads this
    {
      visited - recStack
    }

    /** `path` is the chain of calls in progress. Everything finished is closed and on no cycle. */
    ghost predicate Inv(path: seq<string>)
      reads this
    {
      && recStack <= visited <= NodesOf(deps)
      && (set v | v in path) == recStack
      && (path != [] ==> Walk(EdgesOf(deps), path))
      && Closed(EdgesOf(deps), Finished())
      && (forall v :: v in Finished() ==> !OnCycle(EdgesOf(deps), v))
    }

    method HasCycle(service: string, ghost path: seq<string>) returns (found: bool)
      requires Inv(path) && service in NodesOf(deps) - visited
      requires path != [] ==> (path[|path| - 1], service) in EdgesOf(deps)
      modifies this
      ensures found ==> Cyclic(EdgesOf(deps))
      ensures !found ==> Inv(path) && recStack == old(recStack) && old(visited) + {service} <= visited
      decreases NodesOf(deps) - visited
    {
      visited := visited + {service};
      recStack := recStack + {service};
      ghost var es, chain := EdgesOf(deps), path + [service];
      assert Finished() == old(Finished());

      var targets := if service in deps then deps[service] else [];
      for i := 0 to |targets|
        invariant Inv(chain) && recStack == old(recStack) + {service}
        invariant old(visited) + {service} <= visited
        invariant forall j :: 0 <= j < i ==> targets[j] in Finished()
      {
        var target := targets[i];
        assert (service, target) in es;
        if target !in visited {
          var deeper := HasCycle(target, chain);
          if deeper {
            return true;
          }
        } else if target in recStack {
          BackEdge(chain, target);
          return true;
        }
      }
      OutsideIsOnNoCycle(es, Finished(), service);
      recStack := recStack - {service};
      assert recStack == old(recStack);
      return false;
    }

    /** An edge back into the chain of calls closes a cycle. */
    lemma BackEdge(chain: seq<string>, target: string)
      requires chain != [] && Walk(EdgesOf(deps), chain) && target in chain
      requires (chain[|chain| - 1], target) in EdgesOf(deps)
      ensures Cyclic(EdgesOf(deps))
    {
      var k :| 0 <= k < |chain| && chain[k] == target;
      var p := chain[k..] + [target];
      assert Cycle(EdgesOf(deps), p);
    }
  }

  /** Start a search at every service that has outgoing edges, in any order. */
  method FindCycle(deps: map<string, seq<string>>) returns (found: bool)
    ensures found <==> Cyclic(EdgesOf(deps))
  {
    var search := new Search(deps);
    var remaining := deps.Keys;
    while remaining != {}
      invariant search.Inv([]) && search.deps == deps && fresh(search)
      invariant remaining <= deps.Keys <= search.visited + remaining
      decreases remaining
    {
      var service :| service in remaining;
      remaining := remaining - {service};
      if service !in search.visited {
        var cyclic := search.HasCycle(service, []);
        if cyclic {
          return true;
        }
      }
    }
    if Cyclic(EdgesOf(deps)) {
      CycleMeetsAKey(deps);
    }
    return false;
  }

  /** Searching only from services with outgoing edges is enough: every cycle passes one. */
  lemma CycleMeetsAKey(deps: map<string, seq<string>>)
    requires Cyclic(EdgesOf(deps))
    ensures exists v :: v in deps && OnCycle(EdgesOf(deps), v)
  {
    var p :| Cycle(EdgesOf(deps), p);
    assert (p[0], p[1]) in EdgesOf(deps);
  }
}
