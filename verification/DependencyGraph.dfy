/** Dependency graphs: chains, cycles and longest chains, independent of any algorithm. */
module DependencyGraph {

  datatype Node = Node(id: string, dependsOn: seq<string>)

  /** Dependencies by id.  A dependency on an id outside the graph is no edge. */
  type Graph = map<string, seq<string>>

  predicate DistinctIds(nodes: seq<Node>) {
    forall i, j | 0 <= i < j < |nodes| :: nodes[i].id != nodes[j].id
  }

  /** As a JavaScript `Map` is built: the last node of an id wins. */
  function GraphOf(nodes: seq<Node>): Graph {
    if nodes == [] then map[]
    else GraphOf(nodes[..|nodes| - 1])[nodes[|nodes| - 1].id := nodes[|nodes| - 1].dependsOn]
  }

  lemma {:induction false} GraphOfKeys(nodes: seq<Node>)
    ensures forall id :: id in GraphOf(nodes) <==> exists n :: n in nodes && n.id == id
    ensures DistinctIds(nodes) ==> forall n | n in nodes :: GraphOf(nodes)[n.id] == n.dependsOn
  {
    if nodes != [] {
      var shorter, last := nodes[..|nodes| - 1], nodes[|nodes| - 1];
      assert nodes == shorter + [last];
      GraphOfKeys(shorter);
      assert forall n | n in shorter :: n in nodes;
      assert last in nodes;
    }
  }

  /** Where ids repeat, the last node of an id gives the dependencies. */
  lemma {:induction false} LastNodeWins(nodes: seq<Node>, i: nat)
    requires i < |nodes| && forall j | i < j < |nodes| :: nodes[j].id != nodes[i].id
    ensures nodes[i].id in GraphOf(nodes) && GraphOf(nodes)[nodes[i].id] == nodes[i].dependsOn
  {
    if i < |nodes| - 1 {
      assert nodes[|nodes| - 1].id != nodes[i].id;
      LastNodeWins(nodes[..|nodes| - 1], i);
    }
  }

  ghost predicate Chain(g: Graph, p: seq<string>) {
    && p != []
    && (forall i | 0 <= i < |p| :: p[i] in g)
    && (forall i | 0 <= i < |p| - 1 :: p[i + 1] in g[p[i]])
  }

  ghost predicate Cycle(g: Graph, p: seq<string>) {
    Chain(g, p) && |p| >= 2 && p[0] == p[|p| - 1]
  }

  ghost predicate Acyclic(g: Graph) {
    !exists p :: Cycle(g, p)
  }

  ghost predicate ChainFrom(g: Graph, id: string, p: seq<string>) {
    Chain(g, p) && p[0] == id
  }

  /** `d` is the number of edges of a longest chain of dependencies starting at `id`. */
  ghost predicate IsDepth(g: Graph, id: string, d: nat) {
    && (exists p :: ChainFrom(g, id, p) && |p| == d + 1)
    && (forall p | ChainFrom(g, id, p) :: |p| <= d + 1)
  }

  ghost predicate Ranked(g: Graph, rank: map<string, nat>) {
    && g.Keys <= rank.Keys
    && forall a, b | a in g && b in g && b in g[a] :: rank[b] < rank[a]
  }

  lemma {:induction false} RankFalls(g: Graph, rank: map<string, nat>, p: seq<string>)
    requires Ranked(g, rank) && Chain(g, p)
    ensures rank[p[|p| - 1]] + |p| - 1 <= rank[p[0]]
    decreases |p|
  {
    if |p| > 1 {
      RankFalls(g, rank, p[1..]);
      assert p[1] in g[p[0]];
    }
  }

  lemma RankedMeansAcyclic(g: Graph, rank: map<string, nat>)
    requires Ranked(g, rank)
    ensures Acyclic(g)
  {
    forall p | Cycle(g, p) ensures false {
      RankFalls(g, rank, p);
    }
  }

  /** Two positions of a sequence longer than the set its elements come from hold the same element. */
  lemma {:induction false} Pigeonhole(p: seq<string>, s: set<string>) returns (i: nat, j: nat)
    requires |p| > |s| && forall k | 0 <= k < |p| :: p[k] in s
    ensures i < j < |p| && p[i] == p[j]
    decreases |p|
  {
    if k :| 1 <= k < |p| && p[k] == p[0] {
      i, j := 0, k;
    } else {
      assert |s - {p[0]}| == |s| - 1;
      i, j := Pigeonhole(p[1..], s - {p[0]});
      i, j := i + 1, j + 1;
    }
  }

  ghost predicate DependsWithin(g: Graph, a: string, s: set<string>) {
    a in g && exists b :: b in g[a] && b in s
  }

  /** A nonempty set in which everything depends on something of the set contains a cycle. */
  lemma NoSinkMeansCycle(g: Graph, s: set<string>)
    requires s != {} && s <= g.Keys
    requires forall a {:trigger DependsWithin(g, a, s)} | a in s :: DependsWithin(g, a, s)
    ensures !Acyclic(g)
  {
    var start :| start in s;
    var p := [start];
    while |p| <= |s|
      invariant Chain(g, p) && |p| <= |s| + 1 && forall k | 0 <= k < |p| :: p[k] in s
      decreases |s| + 1 - |p|
    {
      assert DependsWithin(g, p[|p| - 1], s);
      var b :| b in g[p[|p| - 1]] && b in s;
      p := p + [b];
    }
    var i, j := Pigeonhole(p, s);
    assert Cycle(g, p[i..j + 1]);
  }

  lemma ChainCons(g: Graph, a: string, p: seq<string>)
    requires Chain(g, p) && a in g && p[0] in g[a]
    ensures ChainFrom(g, a, [a] + p)
  {
  }

  /** Where everything depends on something of the set, chains are as long as one likes. */
  lemma {:induction false} LongChain(g: Graph, s: set<string>, a: string, length: nat) returns (p: seq<string>)
    requires s <= g.Keys && a in s
    requires forall b {:trigger DependsWithin(g, b, s)} | b in s :: DependsWithin(g, b, s)
    ensures ChainFrom(g, a, p) && |p| == length + 1
    decreases length
  {
    if length == 0 {
      p := [a];
    } else {
      assert DependsWithin(g, a, s);
      var b :| b in g[a] && b in s;
      p := LongChain(g, s, b, length - 1);
      ChainCons(g, a, p);
      p := [a] + p;
    }
  }

  /** A dependency is strictly less deep than what depends on it. */
  lemma DepthsRank(g: Graph, depth: map<string, nat>)
    requires depth.Keys == g.Keys && forall id | id in depth :: IsDepth(g, id, depth[id])
    ensures Ranked(g, depth)
  {
    forall a, b | a in g && b in g && b in g[a] ensures depth[b] < depth[a] {
      var p :| ChainFrom(g, b, p) && |p| == depth[b] + 1;
      ChainCons(g, a, p);
    }
  }
}
