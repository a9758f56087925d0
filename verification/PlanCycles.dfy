/** `findCycle`: depth-first search for a dependency cycle in a plan. */
module PlanCycles {
  import opened Wrappers
  import opened DependencyGraph

  function IndexOf(path: seq<string>, id: string): (i: nat)
    requires id in path
    ensures i < |path| && path[i] == id && id !in path[..i]
  {
    if path[0] == id then 0 else 1 + IndexOf(path[1..], id)
  }

  class CycleFinder {
    const byId: Graph
    var visiting: set<string>
    var visited: set<string>
    var cycle: Option<seq<string>>
    /** The order in which visits finished, as a rank below `clock`. */
    ghost var rank: map<string, nat>
    ghost var clock: nat

    /** Every finished id depends only on ids that finished earlier. */
    ghost predicate Finished()
      reads this
    {
      && rank.Keys == visited
      && (forall id | id in rank :: rank[id] < clock)
      && (forall a, b {:trigger b in byId[a]} | a in visited && a in byId && b in byId[a] ::
          b in visited && rank[b] < rank[a])
    }

    /** The ids being visited are the current path, a chain of dependencies that leads to `id`. */
    ghost predicate OnPath(path: seq<string>, id: string)
      reads this
    {
      && visiting == (set k | k in path)
      && visiting !! visited
      && (path != [] ==> Chain(byId, path) && id in byId[path[|path| - 1]])
    }

    constructor (byId: Graph)
      ensures this.byId == byId && visiting == {} && visited == {} && cycle == None && Finished()
    {
      this.byId, visiting, visited, cycle, rank, clock := byId, {}, {}, None, map[], 0;
    }

    method Visit(id: string, path: seq<string>)
      requires if cycle.None? then Finished() && OnPath(path, id) else Cycle(byId, cycle.value)
      modifies this
      ensures visiting == old(visiting)
      ensures old(cycle).Some? ==> cycle == old(cycle)
      ensures if cycle.None? then Finished() && visiting !! visited && old(visited) <= visited && id in visited
              else Cycle(byId, cycle.value)
      decreases |byId.Keys - visiting|, 1
    {
      if cycle.Some? { return; }
      if id in visiting {
        ClosesCycle(byId, path, id);
        cycle := Some(path[IndexOf(path, id)..] + [id]);
        return;
      }
      if id in visited { return; }
      VisitNew(id, path);
    }

    method VisitNew(id: string, path: seq<string>)
      requires cycle.None? && Finished() && OnPath(path, id) && id !in visiting && id !in visited
      modifies this
      ensures visiting == old(visiting)
      ensures if cycle.None? then Finished() && visiting !! visited && old(visited) <= visited && id in visited
              else Cycle(byId, cycle.value)
      decreases |byId.Keys - visiting|, 0
    {
      visiting := visiting + {id};
      if id in byId {
        ChainSnoc(byId, path, id);
        PathSnoc(old(visiting), path, id);
        Smaller(byId.Keys, old(visiting), id);
        VisitDependencies(id, path + [id]);
      }
      assert id in visiting;
      Finish(id);
    }

    /** Leave `id`, which is finished once all its dependencies are. */
    method Finish(id: string)
      requires cycle.None? ==> Finished() && visiting !! visited && id !in visited
      requires cycle.None? && id in byId ==> forall d | d in byId[id] :: d in visited
      modifies this`visiting, this`visited, this`rank, this`clock
      ensures visiting == old(visiting) - {id} && visited == old(visited) + {id}
      ensures cycle.None? ==> Finished() && visiting !! visited
    {
      visiting := visiting - {id};
      visited := visited + {id};
      rank, clock := rank[id := clock], clock + 1;
    }

    method VisitDependencies(id: string, path: seq<string>)
      requires id in byId && cycle.None? && Finished() && Chain(byId, path) && path[|path| - 1] == id
      requires visiting == (set k | k in path) && visiting !! visited
      modifies this
      ensures visiting == old(visiting)
      ensures if cycle.None? then Finished() && visiting !! visited && old(visited) <= visited
                                  && forall d | d in byId[id] :: d in visited
              else Cycle(byId, cycle.value)
      decreases |byId.Keys - visiting|, 2
    {
      var dependencies := byId[id];
      for k := 0 to |dependencies|
        invariant visiting == old(visiting)
        invariant if cycle.None? then Finished() && visiting !! visited && old(visited) <= visited
                                      && forall d | d in dependencies[..k] :: d in visited
                  else Cycle(byId, cycle.value)
      {
        Visit(dependencies[k], path);
      }
    }
  }

  lemma ClosesCycle(g: Graph, path: seq<string>, id: string)
    requires id in path && Chain(g, path) && id in g[path[|path| - 1]]
    ensures Cycle(g, path[IndexOf(path, id)..] + [id])
  {
    var k := IndexOf(path, id);
    var round := path[k..] + [id];
    forall i | 0 <= i < |round| - 1 ensures round[i + 1] in g[round[i]] {
      assert round[i] == path[k + i];
      if i + 1 < |path| - k { assert round[i + 1] == path[k + i + 1]; }
    }
  }

  lemma ChainSnoc(g: Graph, path: seq<string>, id: string)
    requires id in g && (path != [] ==> Chain(g, path) && id in g[path[|path| - 1]])
    ensures Chain(g, path + [id])
  {
  }

  lemma PathSnoc(visiting: set<string>, path: seq<string>, id: string)
    requires visiting == (set k | k in path)
    ensures visiting + {id} == (set k | k in path + [id])
  {
  }

  lemma Smaller(keys: set<string>, visiting: set<string>, id: string)
    requires id in keys && id !in visiting
    ensures |keys - (visiting + {id})| < |keys - visiting|
  {
    assert keys - visiting == (keys - (visiting + {id})) + {id};
  }

  /** A list returned is a real dependency cycle with equal ends; nothing is returned exactly when the
      plan's dependencies are acyclic, which is also when `planWaves` accepts distinct ids. */
  method FindCycle(steps: seq<Node>) returns (cycle: Option<seq<string>>)
    ensures cycle.None? <==> Acyclic(GraphOf(steps))
    ensures cycle.Some? ==> Cycle(GraphOf(steps), cycle.value)
  {
    var finder := new CycleFinder(GraphOf(steps));
    for i := 0 to |steps|
      invariant finder.visiting == {}
      invariant if finder.cycle.None? then finder.Finished() else Cycle(finder.byId, finder.cycle.value)
      invariant finder.cycle.None? ==> forall n | n in steps[..i] :: n.id in finder.visited
    {
      finder.Visit(steps[i].id, []);
    }
    cycle := finder.cycle;
    if cycle.None? {
      GraphOfKeys(steps);
      assert Ranked(finder.byId, finder.rank);
      RankedMeansAcyclic(finder.byId, finder.rank);
    }
  }

  /** `assertAcyclic`: the plan is accepted, or refused with the cycle as evidence. */
  method AssertAcyclic(steps: seq<Node>) returns (r: Result<(), seq<string>>)
    ensures r.Ok? <==> Acyclic(GraphOf(steps))
    ensures r.Err? ==> Cycle(GraphOf(steps), r.error)
  {
    var cycle := FindCycle(steps);
    return if cycle.Some? then Err(cycle.value) else Ok(());
  }
}
