/** Checkpoint retention: pruning after every creation equals one batch rule over the whole history. */
module Checkpoints {
  import opened Wrappers
  import opened Sequences

  /** An absent label and an empty one both read as unlabelled. */
  datatype Checkpoint = Checkpoint(id: string, sequence: nat, name: string)

  predicate IsLabelled(c: Checkpoint) {
    c.name != ""
  }

  predicate Precedes(c: Checkpoint, d: Checkpoint) {
    c.sequence < d.sequence && c.id != d.id
  }

  ghost predicate Ordered(s: seq<Checkpoint>) {
    forall i, j {:trigger Precedes(s[i], s[j])} | 0 <= i < j < |s| :: Precedes(s[i], s[j])
  }

  function IdSet(s: seq<Checkpoint>): set<string> {
    if s == [] then {} else {s[0].id} + IdSet(s[1..])
  }

  /** The stored rows are exactly the checkpoints of `s`. */
  ghost predicate Holds(rows: map<string, Checkpoint>, s: seq<Checkpoint>) {
    && (forall c | c in s :: c.id in rows && rows[c.id] == c)
    && (forall id | id in rows :: rows[id] in s && rows[id].id == id)
  }

  function LastOf<T>(s: seq<T>, n: nat): seq<T> {
    if |s| <= n then s else s[|s| - n..]
  }

  function Labelled(s: seq<Checkpoint>): seq<Checkpoint> {
    if s == [] then [] else if IsLabelled(s[0]) then [s[0]] + Labelled(s[1..]) else Labelled(s[1..])
  }

  /** Of the checkpoints before the window: the newest `retain` labelled ones. */
  function Milestones(s: seq<Checkpoint>, retain: nat, retainLabelled: bool): seq<Checkpoint> {
    if retainLabelled then LastOf(Labelled(s), retain) else []
  }

  /** The batch rule: the newest `retain`, and the newest `retain` labelled ones before those. */
  function Retained(s: seq<Checkpoint>, retain: nat, retainLabelled: bool): seq<Checkpoint> {
    if |s| <= retain then s else Milestones(s[..|s| - retain], retain, retainLabelled) + s[|s| - retain..]
  }

  lemma {:induction false} LabelledAppend(a: seq<Checkpoint>, b: seq<Checkpoint>)
    ensures Labelled(a + b) == Labelled(a) + Labelled(b)
  {
    if a == [] {
      assert a + b == b;
    } else {
      assert (a + b)[1..] == a[1..] + b;
      LabelledAppend(a[1..], b);
    }
  }

  lemma {:induction false} LabelledMembers(s: seq<Checkpoint>)
    ensures forall c :: c in Labelled(s) <==> c in s && IsLabelled(c)
    ensures |Labelled(s)| <= |s|
  {
    if s != [] {
      LabelledMembers(s[1..]);
      assert s == [s[0]] + s[1..];
    }
  }

  lemma {:induction false} LabelledTwice(s: seq<Checkpoint>)
    requires forall c | c in s :: IsLabelled(c)
    ensures Labelled(s) == s
  {
    if s != [] {
      assert s == [s[0]] + s[1..] && s[0] in s;
      LabelledTwice(s[1..]);
    }
  }

  lemma LastOfLast<T>(x: seq<T>, y: seq<T>, n: nat)
    ensures LastOf(LastOf(x, n) + y, n) == LastOf(x + y, n)
  {
  }

  lemma RetainedAtWindow(earlier: seq<Checkpoint>, window: seq<Checkpoint>, retain: nat, retainLabelled: bool)
    requires |window| == retain
    ensures Retained(earlier + window, retain, retainLabelled) == Milestones(earlier, retain, retainLabelled) + window
  {
    if earlier == [] {
      assert earlier + window == window;
    } else {
      assert (earlier + window)[..|earlier|] == earlier && (earlier + window)[|earlier|..] == window;
    }
  }

  /** Pruning after one more checkpoint gives what the batch rule gives on the longer history. */
  lemma RetainedStep(h: seq<Checkpoint>, c: Checkpoint, retain: nat, retainLabelled: bool)
    ensures Retained(Retained(h, retain, retainLabelled) + [c], retain, retainLabelled)
              == Retained(h + [c], retain, retainLabelled)
  {
    if |h| >= retain {
      var earlier, window := h[..|h| - retain], h[|h| - retain..];
      WindowMoves(earlier, window, c, retain, retainLabelled);
      assert h == earlier + window;
      RetainedAtWindow(earlier, window, retain, retainLabelled);
    }
  }

  lemma WindowMoves(earlier: seq<Checkpoint>, window: seq<Checkpoint>, c: Checkpoint, retain: nat, retainLabelled: bool)
    requires |window| == retain
    ensures Retained(Milestones(earlier, retain, retainLabelled) + window + [c], retain, retainLabelled)
            == Retained(earlier + window + [c], retain, retainLabelled)
  {
    var leaves, moved := (window + [c])[..1], (window + [c])[1..];
    var kept := Milestones(earlier, retain, retainLabelled);
    assert kept + window + [c] == (kept + leaves) + moved;
    assert earlier + window + [c] == (earlier + leaves) + moved;
    RetainedAtWindow(kept + leaves, moved, retain, retainLabelled);
    RetainedAtWindow(earlier + leaves, moved, retain, retainLabelled);
    if retainLabelled { LeavingWindow(earlier, leaves, retain); }
  }

  lemma LeavingWindow(earlier: seq<Checkpoint>, leaves: seq<Checkpoint>, retain: nat)
    ensures LastOf(Labelled(LastOf(Labelled(earlier), retain) + leaves), retain)
              == LastOf(Labelled(earlier + leaves), retain)
  {
    var kept := LastOf(Labelled(earlier), retain);
    LabelledMembers(earlier);
    LabelledTwice(kept);
    LabelledAppend(kept, leaves);
    LabelledAppend(earlier, leaves);
    LastOfLast(Labelled(earlier), Labelled(leaves), retain);
  }

  lemma {:induction false} NewestOfLabelled(s: seq<Checkpoint>, retain: nat, i: nat)
    requires Ordered(s) && i < |s|
    ensures s[i] in LastOf(Labelled(s), retain) <==> IsLabelled(s[i]) && |Labelled(s[i + 1..])| < retain
  {
    assert s == s[..i] + [s[i]] + s[i + 1..];
    LabelledAppend(s[..i] + [s[i]], s[i + 1..]);
    LabelledAppend(s[..i], [s[i]]);
    LabelledMembers(s);
    LabelledOrdered(s);
    if IsLabelled(s[i]) {
      var k := |Labelled(s[..i])|;
      assert Labelled([s[i]]) == [s[i]];
      assert Labelled(s)[k] == s[i] && |Labelled(s)| == k + 1 + |Labelled(s[i + 1..])|;
      InLastOf(Labelled(s), k, retain);
    }
  }

  lemma InLastOf(s: seq<Checkpoint>, k: nat, n: nat)
    requires Ordered(s) && k < |s|
    ensures s[k] in LastOf(s, n) <==> |s| - k <= n
  {
    if |s| > n {
      if s[k] in s[|s| - n..] {
        var j :| |s| - n <= j < |s| && s[j] == s[k];
        assert j < k ==> Precedes(s[j], s[k]);
        assert k < j ==> Precedes(s[k], s[j]);
      }
      if |s| - k <= n { assert s[|s| - n..][k - (|s| - n)] == s[k]; }
    }
  }

  /** What is kept, checkpoint by checkpoint: the newest `retain`, and an older one exactly if it is labelled and fewer
      than `retain` labelled ones lie between it and those. */
  lemma KeptExactly(s: seq<Checkpoint>, retain: nat, retainLabelled: bool, i: nat)
    requires Ordered(s) && i < |s|
    ensures s[i] in Retained(s, retain, retainLabelled) <==>
              || i + retain >= |s|
              || (retainLabelled && s[i].name != "" && |Labelled(s[i + 1..|s| - retain])| < retain)
  {
    if |s| > retain {
      var earlier, window := s[..|s| - retain], s[|s| - retain..];
      OrderedSplit(s, |s| - retain);
      if i + retain >= |s| {
        assert window[i + retain - |s|] == s[i];
      } else {
        assert earlier[i] == s[i] && earlier[i + 1..] == s[i + 1..|s| - retain];
        NewestOfLabelled(earlier, retain, i);
        assert s[i] in earlier && forall d | d in window :: Precedes(s[i], d);
        assert !Precedes(s[i], s[i]);
      }
    }
  }

  /** The store after every creation of a history, pruned each time. */
  function Incremental(h: seq<Checkpoint>, retain: nat, retainLabelled: bool): seq<Checkpoint> {
    if h == [] then []
    else Retained(Incremental(h[..|h| - 1], retain, retainLabelled) + [h[|h| - 1]], retain, retainLabelled)
  }

  lemma {:induction false} IncrementalIsBatch(h: seq<Checkpoint>, retain: nat, retainLabelled: bool)
    ensures Incremental(h, retain, retainLabelled) == Retained(h, retain, retainLabelled)
  {
    if h != [] {
      var shorter, last := h[..|h| - 1], h[|h| - 1];
      IncrementalIsBatch(shorter, retain, retainLabelled);
      var kept := Retained(shorter, retain, retainLabelled);
      assert Incremental(h, retain, retainLabelled) == Retained(kept + [last], retain, retainLabelled);
      RetainedStep(shorter, last, retain, retainLabelled);
      assert h == shorter + [last];
    }
  }

  lemma PruneIsIdempotent(s: seq<Checkpoint>, retain: nat, retainLabelled: bool)
    ensures Retained(Retained(s, retain, retainLabelled), retain, retainLabelled) == Retained(s, retain, retainLabelled)
  {
    if |s| > retain {
      var earlier, window := s[..|s| - retain], s[|s| - retain..];
      var kept := Milestones(earlier, retain, retainLabelled);
      RetainedAtWindow(kept, window, retain, retainLabelled);
      if retainLabelled {
        LabelledMembers(earlier);
        LabelledTwice(kept);
      }
    }
  }

  lemma {:induction false} LabelledOrdered(s: seq<Checkpoint>)
    requires Ordered(s)
    ensures Ordered(Labelled(s))
  {
    if s != [] {
      OrderedSplit(s, 1);
      LabelledOrdered(s[1..]);
      LabelledMembers(s[1..]);
      assert s[0] in s[..1];
      OrderedAppend([s[0]], Labelled(s[1..]));
    }
  }

  lemma RetainedMembers(s: seq<Checkpoint>, retain: nat, retainLabelled: bool)
    ensures forall c | c in Retained(s, retain, retainLabelled) :: c in s
  {
    if |s| > retain && retainLabelled {
      LabelledMembers(s[..|s| - retain]);
      assert s == s[..|s| - retain] + s[|s| - retain..];
    }
  }

  lemma OrderedAppend(a: seq<Checkpoint>, b: seq<Checkpoint>)
    requires Ordered(a) && Ordered(b)
    requires forall c, d {:trigger Precedes(c, d)} | c in a && d in b :: Precedes(c, d)
    ensures Ordered(a + b)
  {
    forall i, j | 0 <= i < j < |a + b| ensures Precedes((a + b)[i], (a + b)[j]) {
      if j < |a| {
        assert Precedes(a[i], a[j]);
      } else if i >= |a| {
        assert Precedes(b[i - |a|], b[j - |a|]);
      } else {
        assert a[i] in a && b[j - |a|] in b;
      }
    }
  }

  lemma OrderedSplit(s: seq<Checkpoint>, k: nat)
    requires Ordered(s) && k <= |s|
    ensures Ordered(s[..k]) && Ordered(s[k..])
    ensures forall c, d {:trigger Precedes(c, d)} | c in s[..k] && d in s[k..] :: Precedes(c, d)
  {
    forall i, j | 0 <= i < j < k ensures Precedes(s[..k][i], s[..k][j]) {
      assert Precedes(s[i], s[j]);
    }
    forall i, j | 0 <= i < j < |s| - k ensures Precedes(s[k..][i], s[k..][j]) {
      assert Precedes(s[k + i], s[k + j]);
    }
    forall c, d | c in s[..k] && d in s[k..] ensures Precedes(c, d) {
      var i :| 0 <= i < k && s[i] == c;
      var j :| k <= j < |s| && s[j] == d;
      assert Precedes(s[i], s[j]);
    }
  }

  /** What is kept stays in order, and includes the newest checkpoint when `retain` is positive. */
  lemma RetainedOrdered(s: seq<Checkpoint>, retain: nat, retainLabelled: bool)
    requires Ordered(s)
    ensures Ordered(Retained(s, retain, retainLabelled))
    ensures retain >= 1 && s != [] ==> s[|s| - 1] in Retained(s, retain, retainLabelled)
  {
    if |s| > retain {
      var earlier, window := s[..|s| - retain], s[|s| - retain..];
      OrderedSplit(s, |s| - retain);
      if retain >= 1 { assert s[|s| - 1] == window[retain - 1]; }
      if retainLabelled {
        LabelledOrdered(earlier);
        LabelledMembers(earlier);
        LastOfOrdered(Labelled(earlier), retain);
        OrderedAppend(LastOf(Labelled(earlier), retain), window);
      }
    }
  }

  lemma LastOfOrdered(s: seq<Checkpoint>, n: nat)
    requires Ordered(s)
    ensures Ordered(LastOf(s, n))
  {
    if |s| > n { OrderedSplit(s, |s| - n); }
  }

  /** Two ordered lists of the same rows are the same list. */
  lemma OrderedIsUnique(a: seq<Checkpoint>, b: seq<Checkpoint>)
    requires Ordered(a) && Ordered(b) && forall c :: c in a <==> c in b
    ensures a == b
  {
    SortedIsUnique(Precedes, a, b);
  }

  lemma {:induction false} InIdSet(s: seq<Checkpoint>, c: Checkpoint)
    requires c in s
    ensures c.id in IdSet(s)
  {
    if s[0] != c {
      assert s == [s[0]] + s[1..];
      InIdSet(s[1..], c);
    }
  }

  lemma {:induction false} FromIdSet(s: seq<Checkpoint>, id: string) returns (c: Checkpoint)
    requires id in IdSet(s)
    ensures c in s && c.id == id
  {
    if s[0].id == id {
      c := s[0];
    } else {
      c := FromIdSet(s[1..], id);
    }
  }

  lemma {:induction false} IdSetConcat(a: seq<Checkpoint>, b: seq<Checkpoint>)
    ensures IdSet(a + b) == IdSet(a) + IdSet(b)
  {
    if a == [] {
      assert a + b == b;
    } else {
      assert (a + b)[1..] == a[1..] + b;
      IdSetConcat(a[1..], b);
    }
  }

  lemma {:induction false} IdSetLabelled(s: seq<Checkpoint>)
    ensures IdSet(Labelled(s)) <= IdSet(s)
  {
    if s != [] {
      IdSetLabelled(s[1..]);
      IdSetConcat([s[0]], Labelled(s[1..]));
    }
  }

  /** An older checkpoint is not among the ids of newer ones. */
  lemma OlderNotIn(s: seq<Checkpoint>, m: nat, k: nat)
    requires Ordered(s) && m < k <= |s|
    ensures s[m].id !in IdSet(s[k..])
  {
    OrderedSplit(s, k);
    assert s[..k][m] == s[m];
    assert forall d | d in s[k..] :: Precedes(s[m], d);
    if s[m].id in IdSet(s[k..]) {
      var _ := FromIdSet(s[k..], s[m].id);
      assert false;
    }
  }

  lemma {:induction false} IdSetSize(s: seq<Checkpoint>)
    requires Ordered(s)
    ensures |IdSet(s)| == |s|
  {
    if s != [] {
      OrderedSplit(s, 1);
      OlderNotIn(s, 0, 1);
      IdSetSize(s[1..]);
    }
  }

  class CheckpointStore {
    var rows: map<string, Checkpoint>

    constructor ()
      ensures rows == map[]
    {
      rows := map[];
    }

    method Save(c: Checkpoint)
      modifies this
      ensures rows == old(rows)[c.id := c]
    {
      rows := rows[c.id := c];
    }

    method Delete(id: string)
      modifies this
      ensures rows == old(rows) - {id}
    {
      rows := rows - {id};
    }

    /** The checkpoints of the run in no particular order. */
    method List() returns (s: seq<Checkpoint>)
      requires forall id | id in rows :: rows[id].id == id
      ensures Holds(rows, s)
      ensures forall i, j | 0 <= i < j < |s| :: s[i].id != s[j].id
    {
      s := [];
      var rest := rows.Keys;
      while rest != {}
        invariant rest <= rows.Keys
        invariant forall c | c in s :: c.id in rows && rows[c.id] == c && c.id !in rest
        invariant forall id | id in rows && id !in rest :: rows[id] in s
        invariant forall i, j | 0 <= i < j < |s| :: s[i].id != s[j].id
        decreases rest
      {
        var id :| id in rest;
        s := s + [rows[id]];
        rest := rest - {id};
      }
    }
  }

  /** Sorting by sequence number. */
  function Insert(s: seq<Checkpoint>, c: Checkpoint): seq<Checkpoint> {
    if s == [] then [c]
    else if s[|s| - 1].sequence < c.sequence then s + [c]
    else Insert(s[..|s| - 1], c) + [s[|s| - 1]]
  }

  predicate Clear(s: seq<Checkpoint>, c: Checkpoint) {
    forall d | d in s :: d.sequence != c.sequence && d.id != c.id
  }

  lemma {:induction false} InsertKeepsOrder(s: seq<Checkpoint>, c: Checkpoint)
    requires Ordered(s) && Clear(s, c)
    ensures Ordered(Insert(s, c))
    ensures forall d :: d in Insert(s, c) <==> d in s || d == c
  {
    if s != [] {
      var shorter, last := s[..|s| - 1], s[|s| - 1];
      OrderedSplit(s, |s| - 1);
      assert s == shorter + [last] && last in s && last in s[|s| - 1..];
      if last.sequence > c.sequence {
        InsertKeepsOrder(shorter, c);
        OrderedAppend(Insert(shorter, c), [last]);
      } else {
        forall d | d in s ensures Precedes(d, c) {
          assert d in shorter ==> Precedes(d, last);
        }
        OrderedAppend(s, [c]);
      }
    }
  }

  method SortBySequence(unsorted: seq<Checkpoint>) returns (s: seq<Checkpoint>)
    requires forall i, j | 0 <= i < j < |unsorted| ::
              unsorted[i].sequence != unsorted[j].sequence && unsorted[i].id != unsorted[j].id
    ensures Ordered(s)
    ensures forall c :: c in s <==> c in unsorted
  {
    s := [];
    for i := 0 to |unsorted|
      invariant Ordered(s)
      invariant forall c :: c in s <==> c in unsorted[..i]
    {
      assert Clear(s, unsorted[i]) by {
        forall d | d in s ensures d.sequence != unsorted[i].sequence && d.id != unsorted[i].id {
          var k :| 0 <= k < i && unsorted[k] == d;
        }
      }
      InsertKeepsOrder(s, unsorted[i]);
      assert unsorted[..i + 1] == unsorted[..i] + [unsorted[i]];
      s := Insert(s, unsorted[i]);
    }
    assert unsorted[..|unsorted|] == unsorted;
  }

  lemma DistinctRows(rows: map<string, Checkpoint>, all: seq<Checkpoint>, listed: seq<Checkpoint>)
    requires Ordered(all) && Holds(rows, all) && Holds(rows, listed)
    requires forall i, j | 0 <= i < j < |listed| :: listed[i].id != listed[j].id
    ensures forall i, j | 0 <= i < j < |listed| :: listed[i].sequence != listed[j].sequence
    ensures forall c :: c in listed <==> c in all
  {
    forall c ensures c in listed <==> c in all {
      if c in listed { assert rows[c.id] == c; }
      if c in all { assert rows[c.id] == c; }
    }
    forall i, j | 0 <= i < j < |listed| ensures listed[i].sequence != listed[j].sequence {
      assert listed[i] in all && listed[j] in all;
      var m :| 0 <= m < |all| && all[m] == listed[i];
      var n :| 0 <= n < |all| && all[n] == listed[j];
      assert m < n ==> Precedes(all[m], all[n]);
      assert n < m ==> Precedes(all[n], all[m]);
    }
  }

  function Reversed(s: seq<Checkpoint>): (r: seq<Checkpoint>)
    ensures |r| == |s| && forall k | 0 <= k < |s| :: r[k] == s[|s| - 1 - k]
  {
    if s == [] then [] else Reversed(s[1..]) + [s[0]]
  }

  lemma OneOlder(s: seq<Checkpoint>, i: nat)
    requires Ordered(s) && i < |s|
    ensures IdSet(s[|s| - 1 - i..]) == {s[|s| - 1 - i].id} + IdSet(s[|s| - i..])
    ensures s[|s| - 1 - i].id !in IdSet(s[|s| - i..])
  {
    assert s[|s| - 1 - i..][1..] == s[|s| - i..];
    OlderNotIn(s, |s| - 1 - i, |s| - i);
  }

  /** The first pass of a prune: the `retain` newest. */
  method KeepNewest(ghost s: seq<Checkpoint>, newestFirst: seq<Checkpoint>, retain: nat) returns (keep: set<string>)
    requires Ordered(s) && retain < |s|
    requires |newestFirst| == |s| && forall k | 0 <= k < |s| :: newestFirst[k] == s[|s| - 1 - k]
    ensures keep == IdSet(s[|s| - retain..])
  {
    keep := {};
    for i := 0 to |newestFirst|
      invariant keep == IdSet(s[|s| - i..]) && |keep| == i <= retain
    {
      if |keep| >= retain { break; }
      OneOlder(s, i);
      keep := keep + {newestFirst[i].id};
    }
  }

  /** The labelled ones among the `i` newest that are older than the window. */
  ghost function Passed(s: seq<Checkpoint>, retain: nat, i: nat): seq<Checkpoint>
    requires retain <= |s| && i <= |s|
  {
    if i <= retain then [] else Labelled(s[..|s| - retain][|s| - i..])
  }

  /** In the second pass only the newest `retain` are already kept when they are looked at. */
  lemma KeptYet(s: seq<Checkpoint>, retain: nat, i: nat)
    requires Ordered(s) && retain < |s| && i < |s|
    ensures s[|s| - 1 - i].id in IdSet(Passed(s, retain, i)) + IdSet(s[|s| - retain..]) <==> i < retain
  {
    var window := s[|s| - retain..];
    if i < retain {
      assert window[retain - 1 - i] == s[|s| - 1 - i];
      InIdSet(window, s[|s| - 1 - i]);
    } else {
      OlderNotIn(s, |s| - 1 - i, |s| - i);
      var newer := s[..|s| - retain][|s| - i..];
      assert s[|s| - i..] == newer + window;
      IdSetConcat(newer, window);
      IdSetLabelled(newer);
    }
  }

  /** The ids kept after looking at the `i` newest, and how many of them the second pass added. */
  ghost predicate KeptSoFar(s: seq<Checkpoint>, retain: nat, i: nat, keep: set<string>, count: nat)
    requires retain <= |s| && i <= |s|
  {
    keep == IdSet(Passed(s, retain, i)) + IdSet(s[|s| - retain..]) && count == |Passed(s, retain, i)|
  }

  /** Looking at one more keeps it exactly when it is labelled and not kept yet. */
  lemma PassOne(s: seq<Checkpoint>, retain: nat, i: nat, keep: set<string>, count: nat)
    requires Ordered(s) && retain < |s| && i < |s| && KeptSoFar(s, retain, i, keep, count)
    ensures var c := s[|s| - 1 - i];
            if IsLabelled(c) && c.id !in keep
            then KeptSoFar(s, retain, i + 1, keep + {c.id}, count + 1)
            else KeptSoFar(s, retain, i + 1, keep, count)
  {
    KeptYet(s, retain, i);
    if i >= retain {
      var c, passed, earlier := s[|s| - 1 - i], Passed(s, retain, i), s[..|s| - retain];
      assert passed == Labelled(earlier[|s| - i..]);
      var suffix := earlier[|s| - i - 1..];
      assert suffix[0] == c && suffix[1..] == earlier[|s| - i..] && Passed(s, retain, i + 1) == Labelled(suffix);
      assert ([c] + passed)[1..] == passed;
    }
  }

  /** The second pass: labelled ones not kept yet, until `retain` of them are. */
  method KeepLabelled(ghost s: seq<Checkpoint>, newestFirst: seq<Checkpoint>, retain: nat, keep0: set<string>)
    returns (keep: set<string>)
    requires Ordered(s) && retain < |s| && keep0 == IdSet(s[|s| - retain..])
    requires |newestFirst| == |s| && forall k | 0 <= k < |s| :: newestFirst[k] == s[|s| - 1 - k]
    ensures keep == IdSet(LastOf(Labelled(s[..|s| - retain]), retain)) + keep0
  {
    keep := keep0;
    var protectedCount := 0;
    ghost var looked := 0;
    for i := 0 to |newestFirst|
      invariant looked == i && protectedCount <= retain && KeptSoFar(s, retain, i, keep, protectedCount)
    {
      if protectedCount >= retain { break; }
      PassOne(s, retain, i, keep, protectedCount);
      looked := i + 1;
      if !IsLabelled(newestFirst[i]) || newestFirst[i].id in keep { continue; }
      keep := keep + {newestFirst[i].id};
      protectedCount := protectedCount + 1;
    }
    NewestLabelled(s, retain, looked);
  }

  /** Looking at the `i` newest finds the newest labelled ones, if those are all or enough are found. */
  lemma NewestLabelled(s: seq<Checkpoint>, retain: nat, i: nat)
    requires retain < |s| && i <= |s| && |Passed(s, retain, i)| <= retain
    requires i == |s| || |Passed(s, retain, i)| == retain
    ensures LastOf(Labelled(s[..|s| - retain]), retain) == Passed(s, retain, i)
  {
    var earlier := s[..|s| - retain];
    if i > retain {
      var older, newer := earlier[..|s| - i], earlier[|s| - i..];
      assert earlier == older + newer;
      LabelledAppend(older, newer);
      if i == |s| { assert newer == earlier; }
    }
  }

  lemma KeptRows(before: map<string, Checkpoint>, after: map<string, Checkpoint>, s: seq<Checkpoint>,
        kept: seq<Checkpoint>)
    requires Ordered(s) && Holds(before, s) && forall c | c in kept :: c in s
    requires forall id :: id in after <==> id in before && (id in IdSet(s) ==> id in IdSet(kept))
    requires forall id | id in after :: after[id] == before[id]
    ensures Holds(after, kept)
  {
    forall c | c in kept ensures c.id in after && after[c.id] == c {
      InIdSet(kept, c);
    }
    forall id | id in after ensures after[id] in kept && after[id].id == id {
      InIdSet(s, before[id]);
      var c := FromIdSet(kept, id);
      assert c in s && before[c.id] == c;
    }
  }

  predicate Fresh(h: seq<Checkpoint>, id: string) {
    forall c | c in h :: c.id != id
  }

  class CheckpointManager {
    const retain: nat
    const retainLabelled: bool
    const store: CheckpointStore
    /** Every checkpoint ever created for the run. */
    ghost var history: seq<Checkpoint>

    constructor (retain: nat, retainLabelled: bool, store: CheckpointStore)
      requires store.rows == map[]
      ensures Valid() && history == [] && this.retain == retain && this.retainLabelled == retainLabelled
                && this.store == store
    {
      this.retain, this.retainLabelled, this.store := retain, retainLabelled, store;
      history := [];
    }

    /** The store holds what the batch rule leaves of the history; while something is retained, the k-th creation
        got number k. */
    ghost predicate Valid()
      reads this, store
    {
      && Holds(store.rows, Retained(history, retain, retainLabelled))
      && (retain >= 1 ==> Ordered(history) && Numbered(history))
    }

    method List(ghost all: seq<Checkpoint>) returns (s: seq<Checkpoint>)
      requires Ordered(all) && Holds(store.rows, all)
      ensures s == all
    {
      var unsorted := store.List();
      DistinctRows(store.rows, all, unsorted);
      s := SortBySequence(unsorted);
      OrderedIsUnique(s, all);
    }

    /** Keeps what the batch rule keeps of the stored checkpoints and reports the others. */
    method Prune(ghost all: seq<Checkpoint>) returns (removed: seq<string>, retained: nat)
      requires Ordered(all) && Holds(store.rows, all)
      modifies store
      ensures Holds(store.rows, Retained(all, retain, retainLabelled))
      ensures retained == |Retained(all, retain, retainLabelled)|
      ensures forall id :: id in removed <==> id in IdSet(all) && id !in IdSet(Retained(all, retain, retainLabelled))
    {
      var s := List(all);
      if |s| <= retain { return [], |s|; }
      var keep := Keep(s);
      ghost var before := store.rows;
      removed := Remove(s, keep);
      RetainedMembers(s, retain, retainLabelled);
      KeptRows(before, store.rows, s, Retained(s, retain, retainLabelled));
      return removed, |keep|;
    }

    /** The ids the two passes keep are those of the batch rule. */
    method Keep(s: seq<Checkpoint>) returns (keep: set<string>)
      requires Ordered(s) && retain < |s|
      ensures keep == IdSet(Retained(s, retain, retainLabelled))
      ensures |keep| == |Retained(s, retain, retainLabelled)|
    {
      var newestFirst := Reversed(s);
      keep := KeepNewest(s, newestFirst, retain);
      if retainLabelled {
        keep := KeepLabelled(s, newestFirst, retain, keep);
      }
      IdSetConcat(Milestones(s[..|s| - retain], retain, retainLabelled), s[|s| - retain..]);
      RetainedOrdered(s, retain, retainLabelled);
      IdSetSize(Retained(s, retain, retainLabelled));
    }

    method Remove(all: seq<Checkpoint>, keep: set<string>) returns (removed: seq<string>)
      modifies store
      ensures forall id :: id in store.rows <==> id in old(store.rows) && (id in IdSet(all) ==> id in keep)
      ensures forall id | id in store.rows :: store.rows[id] == old(store.rows)[id]
      ensures forall id :: id in removed <==> id in IdSet(all) && id !in keep
    {
      removed := [];
      for i := 0 to |all|
        invariant forall id :: id in store.rows <==> id in old(store.rows) && (id in IdSet(all[..i]) ==> id in keep)
        invariant forall id | id in store.rows :: store.rows[id] == old(store.rows)[id]
        invariant forall id :: id in removed <==> id in IdSet(all[..i]) && id !in keep
      {
        IdSetConcat(all[..i], [all[i]]);
        assert all[..i + 1] == all[..i] + [all[i]];
        if all[i].id !in keep {
          store.Delete(all[i].id);
          removed := removed + [all[i].id];
        }
      }
      assert all[..|all|] == all;
    }

    method Latest() returns (c: Option<Checkpoint>)
      requires Valid()
      ensures var kept := Retained(history, retain, retainLabelled);
              c == if kept == [] then None else Some(kept[|kept| - 1])
    {
      if retain >= 1 {
        RetainedOrdered(history, retain, retainLabelled);
      } else {
        NothingKept(history, retainLabelled);
      }
      var s := List(Retained(history, retain, retainLabelled));
      return if s == [] then None else Some(s[|s| - 1]);
    }

    /** Numbers the checkpoint after the newest stored one, saves it and prunes. */
    method Create(id: string, name: string) returns (c: Checkpoint)
      requires Valid() && Fresh(history, id)
      modifies this`history, store
      ensures Valid() && history == old(history) + [c]
      ensures c == Checkpoint(id, if retain >= 1 then |old(history)| + 1 else 1, name)
    {
      var last := Latest();
      c := Checkpoint(id, (if last.Some? then last.value.sequence else 0) + 1, name);
      NextIsFree(history, retain, retainLabelled);
      SaveAndPrune(c);
    }

    method SaveAndPrune(c: Checkpoint)
      requires Valid() && Fresh(history, c.id) && c.sequence == if retain >= 1 then |history| + 1 else 1
      modifies this`history, store
      ensures Valid() && history == old(history) + [c]
    {
      AnyCreateStep(history, c, retain, retainLabelled, store.rows);
      store.Save(c);
      var _, _ := Prune(Retained(history, retain, retainLabelled) + [c]);
      history := history + [c];
    }
  }

  /** Pruning what is stored once `c` is saved leaves what the batch rule says of the longer history. */
  ghost predicate Addable(h: seq<Checkpoint>, c: Checkpoint, retain: nat, retainLabelled: bool,
        rows: map<string, Checkpoint>)
  {
    var kept := Retained(h, retain, retainLabelled);
    && Ordered(kept + [c]) && Holds(rows[c.id := c], kept + [c])
    && Retained(kept + [c], retain, retainLabelled) == Retained(h + [c], retain, retainLabelled)
  }

  lemma NothingKept(h: seq<Checkpoint>, retainLabelled: bool)
    ensures Retained(h, 0, retainLabelled) == []
  {
    if h != [] { assert h[|h|..] == []; }
  }

  /** What the newest stored checkpoint says of the next number. */
  lemma NextIsFree(h: seq<Checkpoint>, retain: nat, retainLabelled: bool)
    requires retain >= 1 ==> Numbered(h)
    ensures var kept := Retained(h, retain, retainLabelled);
            (if kept == [] then 0 else kept[|kept| - 1].sequence) == if retain >= 1 then |h| else 0
  {
    if retain >= 1 { NewestKept(h, retain, retainLabelled); } else { NothingKept(h, retainLabelled); }
  }

  lemma AnyCreateStep(h: seq<Checkpoint>, c: Checkpoint, retain: nat, retainLabelled: bool,
        rows: map<string, Checkpoint>)
    requires retain >= 1 ==> Ordered(h) && Numbered(h)
    requires Fresh(h, c.id) && c.sequence == if retain >= 1 then |h| + 1 else 1
    requires Holds(rows, Retained(h, retain, retainLabelled))
    ensures retain >= 1 ==> Ordered(h + [c]) && Numbered(h + [c])
    ensures Addable(h, c, retain, retainLabelled, rows)
  {
    if retain >= 1 {
      CreateStep(h, c, retain, retainLabelled, rows);
    } else {
      FirstIsAddable(h, c, retainLabelled, rows);
    }
  }

  lemma FirstIsAddable(h: seq<Checkpoint>, c: Checkpoint, retainLabelled: bool, rows: map<string, Checkpoint>)
    requires Holds(rows, Retained(h, 0, retainLabelled))
    ensures Addable(h, c, 0, retainLabelled, rows)
  {
    NothingKept(h, retainLabelled);
    NothingKept(h + [c], retainLabelled);
    NothingKept([c], retainLabelled);
    assert Retained(h, 0, retainLabelled) + [c] == [c];
  }

  lemma CreateStep(h: seq<Checkpoint>, c: Checkpoint, retain: nat, retainLabelled: bool, rows: map<string, Checkpoint>)
    requires Ordered(h) && Numbered(h) && Fresh(h, c.id) && c.sequence == |h| + 1
    requires Holds(rows, Retained(h, retain, retainLabelled))
    ensures Ordered(h + [c]) && Numbered(h + [c]) && Addable(h, c, retain, retainLabelled, rows)
  {
    RetainedMembers(h, retain, retainLabelled);
    RetainedOrdered(h, retain, retainLabelled);
    OneMore(h, c, Retained(h, retain, retainLabelled), rows);
    RetainedStep(h, c, retain, retainLabelled);
  }

  ghost predicate Numbered(h: seq<Checkpoint>) {
    forall k | 0 <= k < |h| :: h[k].sequence == k + 1
  }

  lemma NumberedSnoc(h: seq<Checkpoint>, c: Checkpoint)
    requires Numbered(h) && c.sequence == |h| + 1
    ensures Numbered(h + [c])
    ensures forall d | d in h :: d.sequence < c.sequence
  {
  }

  lemma OrderedSnoc(h: seq<Checkpoint>, c: Checkpoint)
    requires Ordered(h) && Fresh(h, c.id) && forall d | d in h :: d.sequence < c.sequence
    ensures Ordered(h + [c])
  {
    OrderedAppend(h, [c]);
  }

  lemma HoldsSnoc(rows: map<string, Checkpoint>, kept: seq<Checkpoint>, c: Checkpoint)
    requires Holds(rows, kept) && Fresh(kept, c.id)
    ensures Holds(rows[c.id := c], kept + [c])
  {
    var after := rows[c.id := c];
    forall id | id in after ensures after[id] in kept + [c] && after[id].id == id {
      if id != c.id { assert rows[id] in kept; }
    }
  }

  lemma OneMore(h: seq<Checkpoint>, c: Checkpoint, kept: seq<Checkpoint>, rows: map<string, Checkpoint>)
    requires Ordered(h) && Numbered(h) && Fresh(h, c.id) && c.sequence == |h| + 1
    requires Ordered(kept) && Holds(rows, kept) && forall d | d in kept :: d in h
    ensures Ordered(h + [c]) && Numbered(h + [c])
    ensures Ordered(kept + [c]) && Holds(rows[c.id := c], kept + [c])
  {
    NumberedSnoc(h, c);
    OrderedSnoc(h, c);
    OrderedSnoc(kept, c);
    HoldsSnoc(rows, kept, c);
  }

  lemma NewestKept(h: seq<Checkpoint>, retain: nat, retainLabelled: bool)
    requires retain >= 1
    ensures h == [] <==> Retained(h, retain, retainLabelled) == []
    ensures h != [] ==> var kept := Retained(h, retain, retainLabelled); kept[|kept| - 1] == h[|h| - 1]
  {
  }

  /** The number the next checkpoint gets: one more than that of the newest stored one. */
  function NextSequence(stored: seq<Checkpoint>): nat {
    if stored == [] then 1 else stored[|stored| - 1].sequence + 1
  }

  /** The history of a run whose checkpoints are made by `Create`. */
  ghost predicate Created(h: seq<Checkpoint>, retain: nat, retainLabelled: bool) {
    forall k | 0 <= k < |h| :: h[k].sequence == NextSequence(Incremental(h[..k], retain, retainLabelled))
  }

  /** The k-th checkpoint gets number k, so no number is used twice, exactly when something is retained. */
  lemma {:induction false} NumbersNeverReused(h: seq<Checkpoint>, retain: nat, retainLabelled: bool)
    requires Created(h, retain, retainLabelled)
    ensures retain >= 1 ==> Numbered(h)
    ensures retain == 0 ==> forall k | 0 <= k < |h| :: h[k].sequence == 1
  {
    if h != [] {
      var shorter := h[..|h| - 1];
      CreatedPrefix(h, retain, retainLabelled);
      NumbersNeverReused(shorter, retain, retainLabelled);
      NextNumber(shorter, retain, retainLabelled);
      forall k | 0 <= k < |h| ensures h[k].sequence == if retain >= 1 then k + 1 else 1 {
        if k < |h| - 1 { assert h[k] == shorter[k]; }
      }
    }
  }

  lemma CreatedPrefix(h: seq<Checkpoint>, retain: nat, retainLabelled: bool)
    requires Created(h, retain, retainLabelled) && h != []
    ensures Created(h[..|h| - 1], retain, retainLabelled)
    ensures h[|h| - 1].sequence == NextSequence(Incremental(h[..|h| - 1], retain, retainLabelled))
  {
    var shorter := h[..|h| - 1];
    forall k | 0 <= k < |shorter|
      ensures shorter[k].sequence == NextSequence(Incremental(shorter[..k], retain, retainLabelled))
    {
      assert shorter[..k] == h[..k];
    }
  }

  lemma NextNumber(h: seq<Checkpoint>, retain: nat, retainLabelled: bool)
    ensures retain == 0 ==> NextSequence(Incremental(h, retain, retainLabelled)) == 1
    ensures retain >= 1 && h != [] ==> NextSequence(Incremental(h, retain, retainLabelled)) == h[|h| - 1].sequence + 1
    ensures h == [] ==> NextSequence(Incremental(h, retain, retainLabelled)) == 1
  {
    IncrementalIsBatch(h, retain, retainLabelled);
    if retain >= 1 {
      NewestKept(h, retain, retainLabelled);
    }
  }
}
