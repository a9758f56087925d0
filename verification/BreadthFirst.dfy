/** Breadth-first search over an arbitrary finite transition table, as the run-state walkers use it. */
module BreadthFirst {
  // The search keeps a queue of partial paths and a set of states already discovered.

  import opened Wrappers

  type Table<S(!new)> = map<S, seq<S>>

  datatype Hop<S> = Hop(from: S, to: S)

  /** A discovered state together with the hops that discovered it. */
  datatype Item<S> = Item(state: S, path: seq<Hop<S>>)

  datatype Expansion<S> = Found(path: seq<Hop<S>>) | Continue(queue: seq<Item<S>>, seen: set<S>)

  ghost predicate Closed<S(!new)>(table: Table<S>) {
    forall s, i | s in table && 0 <= i < |table[s]| :: table[s][i] in table
  }

  /** The declarative meaning of a path: consecutive legal hops from one state to another. */
  ghost predicate IsPath<S(!new)>(table: Table<S>, from: S, hops: seq<Hop<S>>, to: S) {
    && (forall i | 0 <= i < |hops| :: hops[i].from in table && hops[i].to in table[hops[i].from])
    && (forall i | 0 < i < |hops| :: hops[i].from == hops[i - 1].to)
    && (if hops == [] then from == to else hops[0].from == from && hops[|hops| - 1].to == to)
  }

  ghost predicate Reachable<S(!new)>(table: Table<S>, from: S, to: S) {
    exists hops :: IsPath(table, from, hops, to)
  }

  ghost predicate IsShortest<S(!new)>(table: Table<S>, from: S, hops: seq<Hop<S>>, to: S) {
    && IsPath(table, from, hops, to)
    && forall other | IsPath(table, from, other, to) :: |hops| <= |other|
  }

  /** Discover the successors of `current` from index `j` on, in table order. */
  function Expand<S(!new)>(table: Table<S>, current: Item<S>, j: nat, queue: seq<Item<S>>, seen: set<S>, to: S)
    : (e: Expansion<S>)
    requires Closed(table) && current.state in table && seen <= table.Keys
    requires j <= |table[current.state]|
    ensures e.Continue? ==> seen <= e.seen <= table.Keys && (e.seen == seen ==> e.queue == queue)
    decreases |table[current.state]| - j
  {
    if j == |table[current.state]| then Continue(queue, seen)
    else
      var next := table[current.state][j];
      if next in seen then Expand(table, current, j + 1, queue, seen, to)
      else
        var path := current.path + [Hop(current.state, next)];
        if next == to then Found(path)
        else
          var e := Expand(table, current, j + 1, queue + [Item(next, path)], seen + {next}, to);
          assert e.Continue? ==> next in e.seen;
          e
  }

  predicate QueueInTable<S(!new)>(table: Table<S>, queue: seq<Item<S>>) {
    forall i | 0 <= i < |queue| :: queue[i].state in table
  }

  lemma {:induction false} ExpandKeepsQueueInTable<S(!new)>(table: Table<S>, current: Item<S>, j: nat,
        queue: seq<Item<S>>, seen: set<S>, to: S)
    requires Closed(table) && current.state in table && seen <= table.Keys && QueueInTable(table, queue)
    requires j <= |table[current.state]|
    ensures var e := Expand(table, current, j, queue, seen, to);
            e.Continue? ==> QueueInTable(table, e.queue)
    decreases |table[current.state]| - j
  {
    if j < |table[current.state]| {
      var next := table[current.state][j];
      var found := Item(next, current.path + [Hop(current.state, next)]);
      if next in seen {
        ExpandKeepsQueueInTable(table, current, j + 1, queue, seen, to);
      } else if next != to {
        ExpandKeepsQueueInTable(table, current, j + 1, queue + [found], seen + {next}, to);
      }
    }
  }

  lemma FewerUnseen<S>(keys: set<S>, seen: set<S>, seen': set<S>)
    requires seen < seen' <= keys
    ensures |keys - seen'| < |keys - seen|
  {
    assert keys - seen == (keys - seen') + (seen' - seen);
    var s :| s in seen' - seen;
    assert |seen' - seen| > 0;
    assert (keys - seen') !! (seen' - seen);
  }

  /** The whole search: expand queued items first-in first-out until `to` is discovered. */
  function Search<S(!new)>(table: Table<S>, queue: seq<Item<S>>, seen: set<S>, to: S): Option<seq<Hop<S>>>
    requires Closed(table) && seen <= table.Keys && QueueInTable(table, queue)
    decreases |table.Keys - seen|, |queue|
  {
    if queue == [] then None
    else
      var e := Expand(table, queue[0], 0, queue[1..], seen, to);
      ExpandKeepsQueueInTable(table, queue[0], 0, queue[1..], seen, to);
      match e
      case Found(path) => Some(path)
      case Continue(queue', seen') =>
        if seen == seen' then Search(table, queue', seen', to)
        else
          FewerUnseen(table.Keys, seen, seen');
          Search(table, queue', seen', to)
  }

  /** One iteration of the search: it ends with the path found, or goes on with less left to do. */
  lemma SearchStep<S(!new)>(table: Table<S>, queue: seq<Item<S>>, seen: set<S>, to: S)
    requires Closed(table) && seen <= table.Keys && QueueInTable(table, queue) && queue != []
    ensures match Expand(table, queue[0], 0, queue[1..], seen, to)
            case Found(path) => Search(table, queue, seen, to) == Some(path)
            case Continue(queue', seen') =>
              && seen' <= table.Keys && QueueInTable(table, queue')
              && Search(table, queue, seen, to) == Search(table, queue', seen', to)
              && (if seen' == seen then |queue'| < |queue| else |table.Keys - seen'| < |table.Keys - seen|)
  {
    ExpandKeepsQueueInTable(table, queue[0], 0, queue[1..], seen, to);
    match Expand(table, queue[0], 0, queue[1..], seen, to)
    case Found(_) =>
    case Continue(queue', seen') =>
      if seen != seen' { FewerUnseen(table.Keys, seen, seen'); }
  }

  function Find<S(!new)>(table: Table<S>, from: S, to: S): Option<seq<Hop<S>>>
    requires Closed(table) && from in table
  {
    if from == to then None else Search(table, [Item(from, [])], {from}, to)
  }

  // What the search keeps true.  `frontier` is the item under expansion followed by the queue.

  ghost predicate Sorted<S(!new)>(frontier: seq<Item<S>>) {
    && (forall i, j | 0 <= i < j < |frontier| :: |frontier[i].path| <= |frontier[j].path|)
    && (forall i | 0 <= i < |frontier| :: |frontier[i].path| <= |frontier[0].path| + 1)
  }

  ghost predicate Explored<S(!new)>(table: Table<S>, s: S, seen: set<S>) {
    s in table && forall i | 0 <= i < |table[s]| :: table[s][i] in seen
  }

  ghost predicate InFrontier<S(!new)>(frontier: seq<Item<S>>, s: S) {
    exists i | 0 <= i < |frontier| :: frontier[i].state == s
  }

  ghost predicate Inv<S(!new)>(table: Table<S>, from: S, frontier: seq<Item<S>>, seen: set<S>, to: S) {
    && from in seen && to !in seen && seen <= table.Keys
    && (forall i | 0 <= i < |frontier| ::
          frontier[i].state in seen && IsShortest(table, from, frontier[i].path, frontier[i].state))
    && Sorted(frontier)
    && (forall s {:trigger InFrontier(frontier, s)} {:trigger Explored(table, s, seen)} | s in seen ::
          InFrontier(frontier, s) || Explored(table, s, seen))
  }

  /** Every path that leaves the discovered states leaves them through the frontier. */
  lemma LeavesThroughFrontier<S(!new)>(
      table: Table<S>, from: S, frontier: seq<Item<S>>, seen: set<S>, to: S, p: seq<Hop<S>>, x: S)
    returns (i: nat)
    requires Inv(table, from, frontier, seen, to) && IsPath(table, from, p, x) && x !in seen
    ensures i < |frontier| && |frontier[i].path| < |p|
  {
    var k := 0;
    while k < |p| && p[k].to in seen
      invariant k <= |p|
      invariant if k == 0 then true else p[k - 1].to in seen
    {
      k := k + 1;
    }
    var s := p[k].from;
    assert s in seen && p[k].to in table[s] && !Explored(table, s, seen);
    i :| 0 <= i < |frontier| && frontier[i].state == s;
    assert IsPath(table, from, p[..k], s);
  }

  lemma ExtendPath<S(!new)>(table: Table<S>, from: S, path: seq<Hop<S>>, mid: S, next: S)
    requires IsPath(table, from, path, mid) && mid in table && next in table[mid]
    ensures IsPath(table, from, path + [Hop(mid, next)], next)
  {
  }

  lemma NewItemIsShortest<S(!new)>(table: Table<S>, from: S, frontier: seq<Item<S>>, seen: set<S>, to: S, next: S)
    requires Inv(table, from, frontier, seen, to) && frontier != []
    requires frontier[0].state in table && next in table[frontier[0].state] && next !in seen
    ensures IsShortest(table, from, frontier[0].path + [Hop(frontier[0].state, next)], next)
  {
    ExtendPath(table, from, frontier[0].path, frontier[0].state, next);
    forall other | IsPath(table, from, other, next)
      ensures |frontier[0].path| + 1 <= |other|
    {
      var i := LeavesThroughFrontier(table, from, frontier, seen, to, other, next);
    }
  }

  lemma SortedSnoc<S(!new)>(frontier: seq<Item<S>>, item: Item<S>)
    requires Sorted(frontier) && frontier != [] && |item.path| == |frontier[0].path| + 1
    ensures Sorted(frontier + [item])
  {
  }

  lemma CoveredSnoc<S(!new)>(table: Table<S>, frontier: seq<Item<S>>, seen: set<S>, item: Item<S>, s: S)
    requires InFrontier(frontier, s) || Explored(table, s, seen) || s == item.state
    ensures InFrontier(frontier + [item], s) || Explored(table, s, seen + {item.state})
  {
    var frontier' := frontier + [item];
    if s == item.state {
      assert frontier'[|frontier|].state == s;
    } else if InFrontier(frontier, s) {
      var i :| 0 <= i < |frontier| && frontier[i].state == s;
      assert frontier'[i].state == s;
    }
  }

  lemma DiscoverKeepsInv<S(!new)>(
      table: Table<S>, from: S, current: Item<S>, queue: seq<Item<S>>, seen: set<S>, to: S, next: S)
    requires Inv(table, from, [current] + queue, seen, to) && Closed(table)
    requires current.state in table && next in table[current.state] && next !in seen && next != to
    ensures var item := Item(next, current.path + [Hop(current.state, next)]);
            Inv(table, from, [current] + (queue + [item]), seen + {next}, to)
  {
    var frontier := [current] + queue;
    var item := Item(next, current.path + [Hop(current.state, next)]);
    NewItemIsShortest(table, from, frontier, seen, to, next);
    SortedSnoc(frontier, item);
    assert [current] + (queue + [item]) == frontier + [item];
    forall s | s in seen + {next}
      ensures InFrontier(frontier + [item], s) || Explored(table, s, seen + {next})
    {
      CoveredSnoc(table, frontier, seen, item, s);
    }
  }

  lemma SortedTail<S(!new)>(current: Item<S>, queue: seq<Item<S>>)
    requires Sorted([current] + queue)
    ensures Sorted(queue)
  {
    var frontier := [current] + queue;
    forall i, j | 0 <= i < j < |queue| ensures |queue[i].path| <= |queue[j].path| {
      assert frontier[i + 1] == queue[i] && frontier[j + 1] == queue[j];
    }
    forall i | 0 <= i < |queue| ensures |queue[i].path| <= |queue[0].path| + 1 {
      assert frontier[i + 1] == queue[i] && frontier[1] == queue[0] && frontier[0] == current;
    }
  }

  lemma DropCurrent<S(!new)>(table: Table<S>, from: S, current: Item<S>, queue: seq<Item<S>>, seen: set<S>, to: S)
    requires Inv(table, from, [current] + queue, seen, to) && Explored(table, current.state, seen)
    ensures Inv(table, from, queue, seen, to)
  {
    var frontier := [current] + queue;
    forall i | 0 <= i < |queue|
      ensures queue[i].state in seen && IsShortest(table, from, queue[i].path, queue[i].state)
    {
      assert frontier[i + 1] == queue[i];
    }
    SortedTail(current, queue);
    forall s | s in seen ensures InFrontier(queue, s) || Explored(table, s, seen) {
      if !Explored(table, s, seen) {
        assert InFrontier(frontier, s);
        var i :| 0 <= i < |frontier| && frontier[i].state == s;
        assert queue[i - 1].state == s;
      }
    }
  }

  ghost predicate ExpandedRightly<S(!new)>(table: Table<S>, from: S, e: Expansion<S>, to: S) {
    match e
    case Found(path) => IsShortest(table, from, path, to)
    case Continue(queue, seen) => Inv(table, from, queue, seen, to)
  }

  lemma {:induction false} ExpandKeepsInv<S(!new)>(
      table: Table<S>, from: S, current: Item<S>, j: nat, queue: seq<Item<S>>, seen: set<S>, to: S)
    requires Closed(table) && current.state in table && j <= |table[current.state]|
    requires Inv(table, from, [current] + queue, seen, to)
    requires forall i | 0 <= i < j :: table[current.state][i] in seen
    ensures ExpandedRightly(table, from, Expand(table, current, j, queue, seen, to), to)
    decreases |table[current.state]| - j
  {
    if j == |table[current.state]| {
      DropCurrent(table, from, current, queue, seen, to);
    } else {
      var next := table[current.state][j];
      if next in seen {
        ExpandKeepsInv(table, from, current, j + 1, queue, seen, to);
      } else if next == to {
        NewItemIsShortest(table, from, [current] + queue, seen, to, next);
      } else {
        DiscoverKeepsInv(table, from, current, queue, seen, to, next);
        var item := Item(next, current.path + [Hop(current.state, next)]);
        ExpandKeepsInv(table, from, current, j + 1, queue + [item], seen + {next}, to);
      }
    }
  }

  lemma NothingLeft<S(!new)>(table: Table<S>, from: S, seen: set<S>, to: S)
    requires Inv(table, from, [], seen, to)
    ensures !Reachable(table, from, to)
  {
    if Reachable(table, from, to) {
      var p :| IsPath(table, from, p, to);
      var i := LeavesThroughFrontier(table, from, [], seen, to, p, to);
    }
  }

  lemma SearchCorrect<S(!new)>(table: Table<S>, from: S, queue: seq<Item<S>>, seen: set<S>, to: S)
    requires Closed(table) && QueueInTable(table, queue) && Inv(table, from, queue, seen, to)
    ensures match Search(table, queue, seen, to)
            case Some(path) => IsShortest(table, from, path, to)
            case None => !Reachable(table, from, to)
    decreases |table.Keys - seen|, |queue|
  {
    if queue == [] {
      NothingLeft(table, from, seen, to);
    } else {
      assert queue == [queue[0]] + queue[1..];
      ExpandKeepsInv(table, from, queue[0], 0, queue[1..], seen, to);
      ExpandKeepsQueueInTable(table, queue[0], 0, queue[1..], seen, to);
      match Expand(table, queue[0], 0, queue[1..], seen, to)
      case Found(_) =>
      case Continue(queue', seen') =>
        if seen != seen' {
          FewerUnseen(table.Keys, seen, seen');
        }
        SearchCorrect(table, from, queue', seen', to);
    }
  }

  /** The search returns a shortest legal path, and nothing exactly when the two states are
      the same or no legal path joins them. */
  lemma FindIsShortest<S(!new)>(table: Table<S>, from: S, to: S)
    requires Closed(table) && from in table
    ensures match Find(table, from, to)
            case Some(path) => path != [] && IsShortest(table, from, path, to)
            case None => from == to || !Reachable(table, from, to)
    ensures Find(table, from, to).Some? <==> from != to && Reachable(table, from, to)
  {
    if from != to {
      var start := [Item(from, [])];
      assert IsPath(table, from, [], from);
      assert InFrontier(start, from) by { assert start[0].state == from; }
      SearchCorrect(table, from, start, {from}, to);
    }
  }

  lemma FoundPathEnds<S(!new)>(table: Table<S>, from: S, to: S)
    requires Closed(table) && from in table
    ensures var found := Find(table, from, to);
            found.Some? ==> found.value != [] && found.value[|found.value| - 1].to == to
  {
    FindIsShortest(table, from, to);
  }

  /** Nothing leaves a state without targets. */
  lemma DeadEnd<S(!new)>(table: Table<S>, from: S, to: S)
    requires Closed(table) && from in table && table[from] == []
    ensures Find(table, from, to).None?
    ensures Reachable(table, from, to) <==> from == to
  {
    FindIsShortest(table, from, to);
    assert IsPath(table, from, [], from);
    forall p: seq<Hop<S>> | IsPath(table, from, p, to) ensures p == [] {
      if p != [] {
        assert false;
      }
    }
  }
}
