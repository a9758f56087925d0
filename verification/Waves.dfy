/** `planWaves`: nodes in layers, every dependency in a strictly earlier layer. */
module Waves {
  import opened Wrappers
  import opened DependencyGraph

  datatype DagError = DuplicateId(id: string) | DependencyCycle(ids: seq<string>)

  /** The nodes of one depth, in their original order. */
  function AtDepth(nodes: seq<Node>, depth: map<string, nat>, k: nat): seq<Node> {
    if nodes == [] then []
    else
      var rest := AtDepth(nodes[..|nodes| - 1], depth, k);
      var last := nodes[|nodes| - 1];
      if last.id in depth && depth[last.id] == k then rest + [last] else rest
  }

  function Pending(nodes: seq<Node>, done: set<string>): seq<Node> {
    if nodes == [] then []
    else
      var rest := Pending(nodes[..|nodes| - 1], done);
      var last := nodes[|nodes| - 1];
      if last.id !in done then rest + [last] else rest
  }

  function IdsOf(nodes: seq<Node>): set<string> {
    set n | n in nodes :: n.id
  }

  lemma GraphKeysAreIds(nodes: seq<Node>)
    ensures GraphOf(nodes).Keys == IdsOf(nodes)
  {
    GraphOfKeys(nodes);
  }

  lemma {:induction false} PendingMembers(nodes: seq<Node>, done: set<string>)
    ensures forall n :: n in Pending(nodes, done) <==> n in nodes && n.id !in done
  {
    if nodes != [] {
      PendingMembers(nodes[..|nodes| - 1], done);
      assert nodes == nodes[..|nodes| - 1] + [nodes[|nodes| - 1]];
    }
  }

  lemma {:induction false} AtDepthMembers(nodes: seq<Node>, depth: map<string, nat>, k: nat)
    ensures forall n :: n in AtDepth(nodes, depth, k) <==> n in nodes && n.id in depth && depth[n.id] == k
  {
    if nodes != [] {
      AtDepthMembers(nodes[..|nodes| - 1], depth, k);
      assert nodes == nodes[..|nodes| - 1] + [nodes[|nodes| - 1]];
    }
  }

  /** What a correct schedule is: wave `k` holds exactly the nodes whose longest dependency chain has
      `k` edges, in their original order, and no wave is empty. */
  ghost predicate Layering(nodes: seq<Node>, waves: seq<seq<Node>>, depth: map<string, nat>) {
    && depth.Keys == IdsOf(nodes)
    && (forall id | id in depth :: IsDepth(GraphOf(nodes), id, depth[id]) && depth[id] < |waves|)
    && (forall k: nat | k < |waves| :: waves[k] == AtDepth(nodes, depth, k) && waves[k] != [])
  }

  /** The state between two rounds: everything less deep than the number of waves is placed. */
  ghost predicate Progress(nodes: seq<Node>, waves: seq<seq<Node>>, depth: map<string, nat>) {
    DepthsKnown(nodes, depth, |waves|) && WavesPlaced(nodes, waves, depth)
  }

  /** Exactly the nodes less deep than `k` have a depth; from the others leads a chain that is longer. */
  ghost predicate DepthsKnown(nodes: seq<Node>, depth: map<string, nat>, k: nat) {
    && depth.Keys <= IdsOf(nodes)
    && (forall id | id in depth :: IsDepth(GraphOf(nodes), id, depth[id]) && depth[id] < k)
    && (forall n | n in nodes && n.id !in depth :: exists p :: ChainFrom(GraphOf(nodes), n.id, p) && |p| == k + 1)
  }

  ghost predicate WavesPlaced(nodes: seq<Node>, waves: seq<seq<Node>>, depth: map<string, nat>) {
    forall k: nat | k < |waves| :: waves[k] == AtDepth(nodes, depth, k) && waves[k] != []
  }

  predicate IsReady(n: Node, remaining: set<string>) {
    forall d | d in n.dependsOn :: d !in remaining
  }

  function Ready(nodes: seq<Node>, remaining: set<string>): seq<Node> {
    if nodes == [] then []
    else
      var rest := Ready(nodes[..|nodes| - 1], remaining);
      var last := nodes[|nodes| - 1];
      if IsReady(last, remaining) then rest + [last] else rest
  }

  lemma {:induction false} ReadyMembers(nodes: seq<Node>, remaining: set<string>)
    ensures forall n :: n in Ready(nodes, remaining) <==> n in nodes && IsReady(n, remaining)
  {
    if nodes != [] {
      ReadyMembers(nodes[..|nodes| - 1], remaining);
      assert nodes == nodes[..|nodes| - 1] + [nodes[|nodes| - 1]];
    }
  }

  /** The ready nodes among the pending ones are exactly those of the next depth. */
  lemma {:induction false} ReadyIsNextDepth(
      nodes: seq<Node>, depth: map<string, nat>, depth': map<string, nat>, remaining: set<string>, k: nat)
    requires forall id | id in depth :: depth[id] < k && id in depth' && depth'[id] == depth[id]
    requires forall n | n in nodes && n.id !in depth ::
               (IsReady(n, remaining) <==> n.id in depth') && (n.id in depth' ==> depth'[n.id] == k)
    ensures Ready(Pending(nodes, depth.Keys), remaining) == AtDepth(nodes, depth', k)
    ensures Pending(nodes, depth'.Keys) == Pending(Pending(nodes, depth.Keys), depth'.Keys)
  {
    if nodes != [] {
      var shorter, last := nodes[..|nodes| - 1], nodes[|nodes| - 1];
      assert nodes == shorter + [last];
      ReadyIsNextDepth(shorter, depth, depth', remaining, k);
      var pending := Pending(shorter, depth.Keys);
      if last.id !in depth {
        assert (pending + [last])[..|pending|] == pending;
      }
    }
  }

  lemma {:induction false} EarlierDepthsKept(nodes: seq<Node>, depth: map<string, nat>, depth': map<string, nat>,
        k: nat)
    requires forall id | id in depth :: id in depth' && depth'[id] == depth[id]
    requires forall id | id in depth' && id !in depth :: depth'[id] != k
    ensures AtDepth(nodes, depth', k) == AtDepth(nodes, depth, k)
  {
    if nodes != [] {
      EarlierDepthsKept(nodes[..|nodes| - 1], depth, depth', k);
    }
  }

  lemma ReadyNodeDepth(nodes: seq<Node>, waves: seq<seq<Node>>, depth: map<string, nat>, n: Node)
    requires DistinctIds(nodes) && Progress(nodes, waves, depth)
    requires n in nodes && n.id !in depth && IsReady(n, IdsOf(nodes) - depth.Keys)
    ensures IsDepth(GraphOf(nodes), n.id, |waves|)
  {
    var g := GraphOf(nodes);
    GraphOfKeys(nodes);
    forall p | ChainFrom(g, n.id, p) ensures |p| <= |waves| + 1 {
      if |p| > 1 {
        assert p[1] in n.dependsOn && p[1] in depth;
        assert ChainFrom(g, p[1], p[1..]);
      }
    }
  }

  lemma BlockedNodeChain(nodes: seq<Node>, waves: seq<seq<Node>>, depth: map<string, nat>, n: Node)
    requires DistinctIds(nodes) && Progress(nodes, waves, depth)
    requires n in nodes && n.id !in depth && !IsReady(n, IdsOf(nodes) - depth.Keys)
    ensures exists p :: ChainFrom(GraphOf(nodes), n.id, p) && |p| == |waves| + 2
  {
    var g := GraphOf(nodes);
    GraphOfKeys(nodes);
    var d :| d in n.dependsOn && d in IdsOf(nodes) - depth.Keys;
    var m :| m in nodes && m.id == d;
    var p :| ChainFrom(g, m.id, p) && |p| == |waves| + 1;
    ChainCons(g, n.id, p);
    assert |[n.id] + p| == |waves| + 2;
  }

  function Deepen(depth: map<string, nat>, ready: set<string>, k: nat): (deeper: map<string, nat>)
    ensures deeper.Keys == depth.Keys + ready
  {
    depth + map id | id in ready :: k
  }

  /** Placing the ready nodes extends the depths to exactly the pending nodes that are ready. */
  lemma DeepenedAreReady(nodes: seq<Node>, depth: map<string, nat>, ready: seq<Node>)
    requires DistinctIds(nodes)
    requires ready == Ready(Pending(nodes, depth.Keys), IdsOf(nodes) - depth.Keys)
    ensures IdsOf(ready) !! depth.Keys && IdsOf(ready) <= IdsOf(nodes)
    ensures forall n | n in nodes && n.id !in depth ::
              IsReady(n, IdsOf(nodes) - depth.Keys) <==> n.id in IdsOf(ready)
  {
    var remaining := IdsOf(nodes) - depth.Keys;
    PendingMembers(nodes, depth.Keys);
    ReadyMembers(Pending(nodes, depth.Keys), remaining);
    forall n | n in nodes && n.id !in depth ensures IsReady(n, remaining) <==> n.id in IdsOf(ready) {
      if n.id in IdsOf(ready) {
        var m :| m in ready && m.id == n.id;
        SameIdSameNode(nodes, m, n);
      }
      if IsReady(n, remaining) {
        assert n in ready;
      }
    }
  }

  /** One round: placing the ready nodes makes progress by one wave. */
  lemma RoundKeepsProgress(nodes: seq<Node>, waves: seq<seq<Node>>, depth: map<string, nat>, ready: seq<Node>)
    requires DistinctIds(nodes) && Progress(nodes, waves, depth)
    requires ready == Ready(Pending(nodes, depth.Keys), IdsOf(nodes) - depth.Keys) && ready != []
    ensures Progress(nodes, waves + [ready], Deepen(depth, IdsOf(ready), |waves|))
    ensures Pending(nodes, Deepen(depth, IdsOf(ready), |waves|).Keys)
            == Pending(Pending(nodes, depth.Keys), IdsOf(ready))
  {
    RoundKeepsWaves(nodes, waves, depth, ready);
    RoundKeepsPending(nodes, depth, ready, |waves|);
    RoundKeepsDepths(nodes, waves, depth, ready);
    assert |waves + [ready]| == |waves| + 1;
  }

  lemma RoundKeepsWaves(nodes: seq<Node>, waves: seq<seq<Node>>, depth: map<string, nat>, ready: seq<Node>)
    requires DistinctIds(nodes)
    requires (forall id | id in depth :: depth[id] < |waves|) && WavesPlaced(nodes, waves, depth)
    requires ready == Ready(Pending(nodes, depth.Keys), IdsOf(nodes) - depth.Keys) && ready != []
    ensures WavesPlaced(nodes, waves + [ready], Deepen(depth, IdsOf(ready), |waves|))
  {
    var depth', waves' := Deepen(depth, IdsOf(ready), |waves|), waves + [ready];
    DeepenedAreReady(nodes, depth, ready);
    ReadyIsNextDepth(nodes, depth, depth', IdsOf(nodes) - depth.Keys, |waves|);
    forall k: nat | k < |waves'| ensures waves'[k] == AtDepth(nodes, depth', k) && waves'[k] != [] {
      if k < |waves| {
        EarlierDepthsKept(nodes, depth, depth', k);
        assert waves'[k] == waves[k];
      }
    }
  }

  lemma RoundKeepsPending(nodes: seq<Node>, depth: map<string, nat>, ready: seq<Node>, k: nat)
    requires DistinctIds(nodes) && forall id | id in depth :: depth[id] < k
    requires ready == Ready(Pending(nodes, depth.Keys), IdsOf(nodes) - depth.Keys)
    ensures Pending(nodes, Deepen(depth, IdsOf(ready), k).Keys) == Pending(Pending(nodes, depth.Keys), IdsOf(ready))
  {
    var depth' := Deepen(depth, IdsOf(ready), k);
    DeepenedAreReady(nodes, depth, ready);
    ReadyIsNextDepth(nodes, depth, depth', IdsOf(nodes) - depth.Keys, k);
    PendingMembers(nodes, depth.Keys);
    PendingAgain(Pending(nodes, depth.Keys), depth, depth', IdsOf(ready));
  }

  lemma RoundKeepsDepths(nodes: seq<Node>, waves: seq<seq<Node>>, depth: map<string, nat>, ready: seq<Node>)
    requires DistinctIds(nodes) && Progress(nodes, waves, depth)
    requires ready == Ready(Pending(nodes, depth.Keys), IdsOf(nodes) - depth.Keys)
    ensures DepthsKnown(nodes, Deepen(depth, IdsOf(ready), |waves|), |waves| + 1)
  {
    var depth' := Deepen(depth, IdsOf(ready), |waves|);
    DeepenedAreReady(nodes, depth, ready);
    forall id | id in depth' ensures IsDepth(GraphOf(nodes), id, depth'[id]) && depth'[id] < |waves| + 1 {
      if id !in depth {
        var m :| m in ready && m.id == id;
        PendingMembers(nodes, depth.Keys);
        ReadyMembers(Pending(nodes, depth.Keys), IdsOf(nodes) - depth.Keys);
        ReadyNodeDepth(nodes, waves, depth, m);
      }
    }
    forall n | n in nodes && n.id !in depth'
      ensures exists p :: ChainFrom(GraphOf(nodes), n.id, p) && |p| == |waves| + 2
    {
      BlockedNodeChain(nodes, waves, depth, n);
    }
  }

  lemma {:induction false} PendingAgain(
      pending: seq<Node>, depth: map<string, nat>, depth': map<string, nat>, ready: set<string>)
    requires depth'.Keys == depth.Keys + ready && forall n | n in pending :: n.id !in depth
    ensures Pending(pending, depth'.Keys) == Pending(pending, ready)
  {
    if pending != [] {
      PendingAgain(pending[..|pending| - 1], depth, depth', ready);
      assert pending[|pending| - 1] in pending;
    }
  }

  lemma SameIdSameNode(nodes: seq<Node>, m: Node, n: Node)
    requires DistinctIds(nodes) && m in nodes && n in nodes && m.id == n.id
    ensures m == n
  {
  }

  lemma StuckMeansEndless(nodes: seq<Node>, done: set<string>, a: string, d: nat)
    requires DistinctIds(nodes) && done <= IdsOf(nodes) && a in IdsOf(nodes) - done
    requires Ready(Pending(nodes, done), IdsOf(nodes) - done) == []
    ensures !IsDepth(GraphOf(nodes), a, d)
  {
    var remaining := IdsOf(nodes) - done;
    GraphKeysAreIds(nodes);
    forall b | b in remaining ensures DependsWithin(GraphOf(nodes), b, remaining) {
      BlockedDependsWithin(nodes, done, b);
    }
    var p := LongChain(GraphOf(nodes), remaining, a, d + 1);
  }

  /** The ids that are reported when no wave is left: those from which chains of dependencies never end. */
  ghost predicate Endless(nodes: seq<Node>, ids: seq<string>) {
    forall id :: id in ids <==> id in IdsOf(nodes) && forall d :: !IsDepth(GraphOf(nodes), id, d)
  }

  lemma StuckIsEndless(nodes: seq<Node>, depth: map<string, nat>, remaining: seq<Node>, ids: seq<string>)
    requires DistinctIds(nodes) && depth.Keys <= IdsOf(nodes) && remaining == Pending(nodes, depth.Keys)
    requires forall id | id in depth :: IsDepth(GraphOf(nodes), id, depth[id])
    requires Ready(remaining, IdsOf(nodes) - depth.Keys) == []
    requires |ids| == |remaining| && forall i | 0 <= i < |ids| :: ids[i] == remaining[i].id
    ensures Endless(nodes, ids)
  {
    PendingIds(nodes, depth.Keys);
    forall id ensures id in ids <==> id in IdsOf(remaining) {
      if id in IdsOf(remaining) {
        var n :| n in remaining && n.id == id;
        var i :| 0 <= i < |remaining| && remaining[i] == n;
        assert ids[i] == id;
      }
    }
    forall id, d | id in IdsOf(nodes) - depth.Keys ensures !IsDepth(GraphOf(nodes), id, d) {
      StuckMeansEndless(nodes, depth.Keys, id, d);
    }
  }

  /** No ready node while some are pending: the pending ones contain a cycle. */
  lemma StuckMeansCycle(nodes: seq<Node>, done: set<string>)
    requires DistinctIds(nodes) && done <= IdsOf(nodes)
    requires Pending(nodes, done) != [] && Ready(Pending(nodes, done), IdsOf(nodes) - done) == []
    ensures !Acyclic(GraphOf(nodes))
  {
    var remaining := IdsOf(nodes) - done;
    PendingIds(nodes, done);
    var first := Pending(nodes, done)[0];
    assert first in Pending(nodes, done) && first.id in IdsOf(Pending(nodes, done));
    GraphOfKeys(nodes);
    forall a | a in remaining ensures DependsWithin(GraphOf(nodes), a, remaining) {
      BlockedDependsWithin(nodes, done, a);
    }
    NoSinkMeansCycle(GraphOf(nodes), remaining);
  }

  lemma BlockedDependsWithin(nodes: seq<Node>, done: set<string>, a: string)
    requires DistinctIds(nodes) && a in IdsOf(nodes) - done
    requires Ready(Pending(nodes, done), IdsOf(nodes) - done) == []
    ensures DependsWithin(GraphOf(nodes), a, IdsOf(nodes) - done)
  {
    var remaining := IdsOf(nodes) - done;
    PendingMembers(nodes, done);
    ReadyMembers(Pending(nodes, done), remaining);
    GraphOfKeys(nodes);
    var n :| n in nodes && n.id == a;
    assert n in Pending(nodes, done) && n !in Ready(Pending(nodes, done), remaining);
    var d :| d in n.dependsOn && d in remaining;
    assert d in GraphOf(nodes)[a];
  }

  lemma PendingIds(nodes: seq<Node>, done: set<string>)
    requires done <= IdsOf(nodes)
    ensures IdsOf(Pending(nodes, done)) == IdsOf(nodes) - done
  {
    PendingMembers(nodes, done);
    forall id | id in IdsOf(nodes) - done ensures id in IdsOf(Pending(nodes, done)) {
      var n :| n in nodes && n.id == id;
      assert n in Pending(nodes, done);
    }
  }

  /** Succeeds exactly when the ids are distinct and the dependencies among them acyclic. */
  method PlanWaves(nodes: seq<Node>) returns (r: Result<seq<seq<Node>>, DagError>, ghost depth: map<string, nat>)
    ensures r.Ok? <==> DistinctIds(nodes) && Acyclic(GraphOf(nodes))
    ensures r.Ok? ==> Layering(nodes, r.value, depth)
    ensures r.Err? && r.error.DuplicateId? ==> FirstRepeats(nodes, r.error.id)
    ensures r.Err? && r.error.DependencyCycle? ==>
              DistinctIds(nodes) && !Acyclic(GraphOf(nodes)) && Endless(nodes, r.error.ids)
  {
    var duplicate := FirstDuplicate(nodes);
    if duplicate.Some? { return Err(DuplicateId(duplicate.value)), map[]; }
    r, depth := Layer(nodes);
  }

  method Layer(nodes: seq<Node>) returns (r: Result<seq<seq<Node>>, DagError>, ghost depth: map<string, nat>)
    requires DistinctIds(nodes)
    ensures r.Ok? <==> Acyclic(GraphOf(nodes))
    ensures r.Ok? ==> Layering(nodes, r.value, depth)
    ensures r.Err? ==> r.error.DependencyCycle? && Endless(nodes, r.error.ids)
  {
    depth := map[];
    StartProgress(nodes);
    var remaining := nodes;
    var completed: set<string> := {};
    var waves: seq<seq<Node>> := [];
    while remaining != []
      invariant Progress(nodes, waves, depth) && completed == depth.Keys
      invariant remaining == Pending(nodes, depth.Keys)
      decreases |remaining|
    {
      var ready := NextReady(nodes, remaining, completed);
      if |ready| == 0 {
        StuckMeansCycle(nodes, completed);
        var ids := seq(|remaining|, i requires 0 <= i < |remaining| => remaining[i].id);
        StuckIsEndless(nodes, depth, remaining, ids);
        return Err(DependencyCycle(ids)), depth;
      }
      RoundKeepsProgress(nodes, waves, depth, ready);
      depth := Deepen(depth, IdsOf(ready), |waves|);
      completed := completed + IdsOf(ready);
      remaining := Pending(remaining, IdsOf(ready));
      waves := waves + [ready];
    }
    AllPlaced(nodes, waves, depth);
    return Ok(waves), depth;
  }

  lemma AllPlaced(nodes: seq<Node>, waves: seq<seq<Node>>, depth: map<string, nat>)
    requires Progress(nodes, waves, depth) && Pending(nodes, depth.Keys) == []
    ensures Layering(nodes, waves, depth) && Acyclic(GraphOf(nodes))
  {
    NonePending(nodes, depth.Keys);
    DepthsMeanAcyclic(nodes, depth);
  }

  lemma NonePending(nodes: seq<Node>, done: set<string>)
    requires done <= IdsOf(nodes) && Pending(nodes, done) == []
    ensures done == IdsOf(nodes)
  {
    PendingMembers(nodes, done);
    forall id | id in IdsOf(nodes) ensures id in done {
      var n :| n in nodes && n.id == id;
      assert n !in Pending(nodes, done);
    }
  }

  lemma DepthsMeanAcyclic(nodes: seq<Node>, depth: map<string, nat>)
    requires depth.Keys == IdsOf(nodes) && forall id | id in depth :: IsDepth(GraphOf(nodes), id, depth[id])
    ensures Acyclic(GraphOf(nodes))
  {
    GraphKeysAreIds(nodes);
    DepthsRank(GraphOf(nodes), depth);
    RankedMeansAcyclic(GraphOf(nodes), depth);
  }

  /** The first id in the list that an earlier node carries. */
  ghost predicate FirstRepeats(nodes: seq<Node>, id: string) {
    exists j :: 0 <= j < |nodes| && nodes[j].id == id && DistinctIds(nodes[..j])
      && exists i | 0 <= i < j :: nodes[i].id == id
  }

  /** Filling the map of remaining nodes fails on the first id it already holds. */
  method FirstDuplicate(nodes: seq<Node>) returns (r: Option<string>)
    ensures r.None? <==> DistinctIds(nodes)
    ensures r.Some? ==> FirstRepeats(nodes, r.value)
  {
    var known: set<string> := {};
    for i := 0 to |nodes|
      invariant DistinctIds(nodes[..i])
      invariant known == IdsOf(nodes[..i])
    {
      if nodes[i].id in known {
        var n :| n in nodes[..i] && n.id == nodes[i].id;
        return Some(nodes[i].id);
      }
      assert nodes[..i + 1] == nodes[..i] + [nodes[i]];
      known := known + {nodes[i].id};
    }
    assert nodes[..|nodes|] == nodes;
    return None;
  }

  lemma StartProgress(nodes: seq<Node>)
    ensures Progress(nodes, [], map[]) && Pending(nodes, {}) == nodes
  {
    var g := GraphOf(nodes);
    GraphOfKeys(nodes);
    forall n | n in nodes ensures exists p :: ChainFrom(g, n.id, p) && |p| == 1 {
      assert ChainFrom(g, n.id, [n.id]) && |[n.id]| == 1;
    }
    NothingDone(nodes);
  }

  lemma {:induction false} NothingDone(nodes: seq<Node>)
    ensures Pending(nodes, {}) == nodes
  {
    if nodes != [] {
      NothingDone(nodes[..|nodes| - 1]);
    }
  }

  /** The filter as the source writes it: a dependency is met when completed or not remaining. */
  predicate DependenciesMet(n: Node, completed: set<string>, remaining: set<string>) {
    forall d | d in n.dependsOn :: d in completed || d !in remaining
  }

  /** The next wave: what is ready once everything placed so far is completed. */
  method NextReady(nodes: seq<Node>, remaining: seq<Node>, completed: set<string>) returns (ready: seq<Node>)
    requires completed <= IdsOf(nodes) && remaining == Pending(nodes, completed)
    ensures ready == Ready(remaining, IdsOf(nodes) - completed)
    ensures ready != [] ==> |Pending(remaining, IdsOf(ready))| < |remaining|
  {
    PendingIds(nodes, completed);
    ready := FilterReady(remaining, completed);
    ReadyAgrees(remaining, completed, IdsOf(nodes) - completed);
    if ready != [] { PendingShrinks(remaining, ready, IdsOf(nodes) - completed); }
  }

  method FilterReady(remaining: seq<Node>, completed: set<string>) returns (ready: seq<Node>)
    ensures ready == ReadyBy(remaining, completed, IdsOf(remaining))
  {
    ready := [];
    var ids := IdsOf(remaining);
    for i := 0 to |remaining|
      invariant ready == ReadyBy(remaining[..i], completed, ids)
    {
      assert remaining[..i + 1][..i] == remaining[..i];
      if DependenciesMet(remaining[i], completed, ids) {
        ready := ready + [remaining[i]];
      }
    }
    assert remaining[..|remaining|] == remaining;
  }

  function ReadyBy(nodes: seq<Node>, completed: set<string>, remaining: set<string>): seq<Node> {
    if nodes == [] then []
    else
      var rest := ReadyBy(nodes[..|nodes| - 1], completed, remaining);
      var last := nodes[|nodes| - 1];
      if DependenciesMet(last, completed, remaining) then rest + [last] else rest
  }

  lemma {:induction false} ReadyAgrees(nodes: seq<Node>, completed: set<string>, remaining: set<string>)
    requires completed !! remaining
    ensures ReadyBy(nodes, completed, remaining) == Ready(nodes, remaining)
  {
    if nodes != [] {
      ReadyAgrees(nodes[..|nodes| - 1], completed, remaining);
    }
  }

  lemma PendingShrinks(nodes: seq<Node>, ready: seq<Node>, remaining: set<string>)
    requires ready == Ready(nodes, remaining) && ready != []
    ensures |Pending(nodes, IdsOf(ready))| < |nodes|
  {
    ReadyMembers(nodes, remaining);
    assert ready[0] in ready;
    DropOne(nodes, IdsOf(ready), ready[0]);
  }

  lemma {:induction false} DropOne(nodes: seq<Node>, done: set<string>, n: Node)
    requires n in nodes && n.id in done
    ensures |Pending(nodes, done)| < |nodes|
  {
    var shorter := nodes[..|nodes| - 1];
    NoLonger(shorter, done);
    if nodes[|nodes| - 1].id !in done {
      assert nodes == shorter + [nodes[|nodes| - 1]];
      DropOne(shorter, done, n);
    }
  }

  lemma {:induction false} NoLonger(nodes: seq<Node>, done: set<string>)
    ensures |Pending(nodes, done)| <= |nodes|
  {
    if nodes != [] {
      NoLonger(nodes[..|nodes| - 1], done);
    }
  }

  /** Every node is in exactly one wave, and every in-set dependency in a strictly earlier one. */
  lemma WavesPartition(nodes: seq<Node>, waves: seq<seq<Node>>, depth: map<string, nat>, n: Node)
    requires DistinctIds(nodes) && Layering(nodes, waves, depth) && n in nodes
    ensures forall k: nat | k < |waves| :: n in waves[k] <==> k == depth[n.id]
    ensures forall m | m in nodes && m.id in n.dependsOn :: depth[m.id] < depth[n.id]
  {
    forall k: nat | k < |waves| ensures n in waves[k] <==> k == depth[n.id] {
      AtDepthMembers(nodes, depth, k);
    }
    GraphOfKeys(nodes);
    DepthsRank(GraphOf(nodes), depth);
  }

  /** The true critical path: the number of waves is the node count of a longest dependency chain. */
  ghost predicate IsCriticalPath(g: Graph, length: nat) {
    && (forall p | Chain(g, p) :: |p| <= length)
    && (if length == 0 then g == map[] else exists p :: Chain(g, p) && |p| == length)
  }

  method CriticalPathLength(nodes: seq<Node>) returns (r: Result<nat, DagError>)
    ensures r.Ok? <==> DistinctIds(nodes) && Acyclic(GraphOf(nodes))
    ensures r.Ok? ==> IsCriticalPath(GraphOf(nodes), r.value)
  {
    var waves, depth := PlanWaves(nodes);
    if waves.Err? { return Err(waves.error); }
    WavesCountLongestChain(nodes, waves.value, depth);
    return Ok(|waves.value|);
  }

  lemma WavesCountLongestChain(nodes: seq<Node>, waves: seq<seq<Node>>, depth: map<string, nat>)
    requires Layering(nodes, waves, depth)
    ensures IsCriticalPath(GraphOf(nodes), |waves|)
  {
    var g := GraphOf(nodes);
    GraphOfKeys(nodes);
    forall p | Chain(g, p) ensures |p| <= |waves| {
      GraphKeysAreIds(nodes);
      assert ChainFrom(g, p[0], p) && p[0] in depth;
    }
    if waves != [] {
      var k := |waves| - 1;
      AtDepthMembers(nodes, depth, k);
      var n := waves[k][0];
      assert n in waves[k];
      var p :| ChainFrom(g, n.id, p) && |p| == depth[n.id] + 1;
      assert Chain(g, p) && |p| == |waves|;
    } else {
      GraphKeysAreIds(nodes);
      assert depth.Keys == {};
    }
  }
}
