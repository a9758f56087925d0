/** The queue and the session as objects over the shared store. */
module RunQueue {
  // What a method read from the store earlier is a parameter, because other workers may have written between the
  // read and the write.

  import opened Wrappers
  import opened RunStates
  import opened RunClaims
  import BF = BreadthFirst
  import opened RunOwnership

  datatype StoreError = Concurrency | NotFound | Validation

  datatype AgentRun = AgentRun(id: string, row: Row)

  datatype QueuedRun = QueuedRun(runId: string, action: DispatchAction, attempt: nat, claimedAt: nat, claimedBy: string)

  /** The run store's contract: an update is accepted only at the expected version. */
  class RunStore {
    var rows: map<string, Row>

    constructor ()
      ensures rows == map[]
    {
      rows := map[];
    }

    predicate Accepts(id: string, expected: nat)
      reads this
    {
      id in rows && rows[id].version == expected
    }

    method Update(run: AgentRun, expected: nat) returns (r: Result<AgentRun, StoreError>)
      modifies this
      ensures r == if run.id !in old(rows) then Err(NotFound)
                   else if old(rows)[run.id].version != expected then Err(Concurrency)
                   else Ok(run)
      ensures rows == if r.Ok? then old(rows)[run.id := run.row] else old(rows)
    {
      if run.id !in rows { return Err(NotFound); }
      if rows[run.id].version != expected { return Err(Concurrency); }
      rows := rows[run.id := run.row];
      return Ok(run);
    }
  }

  predicate Attemptable(run: AgentRun) {
    !IsTerminal(run.row.status) && IsFree(run.row.claim)
  }

  /** The rows and released ids after a sweep of `page`, and whether it met a deleted run. */
  datatype Sweep = Sweep(rows: map<string, Row>, released: seq<string>, missing: bool)

  function SweepOne(before: Sweep, run: AgentRun, workerId: string, cutoff: int): Sweep {
    if before.missing || !Stale(run.row.claim, workerId, cutoff) then before
    else if run.id !in before.rows then before.(missing := true)
    else if before.rows[run.id].version != run.row.version then before
    else before.(rows := before.rows[run.id := Marked(run.row, ReclaimMarker(run.row.claim.value))],
                 released := before.released + [run.id])
  }

  function SweepStale(rows: map<string, Row>, page: seq<AgentRun>, workerId: string, cutoff: int): Sweep {
    if page == [] then Sweep(rows, [], false)
    else SweepOne(SweepStale(rows, page[..|page| - 1], workerId, cutoff), page[|page| - 1], workerId, cutoff)
  }

  class StoreRunQueue {
    const store: RunStore
    const workerId: string

    constructor (store: RunStore, workerId: string)
      ensures this.store == store && this.workerId == workerId
    {
      this.store, this.workerId := store, workerId;
    }

    /** Of two writers that read the same version at most one succeeds: the version moves with the claim. */
    method Write(run: AgentRun, marker: Marker) returns (r: Result<AgentRun, StoreError>)
      modifies store
      ensures r.Ok? <==> old(store.Accepts(run.id, run.row.version))
      ensures r.Err? ==> r.error == if run.id in old(store.rows) then Concurrency else NotFound
      ensures r.Ok? ==> r.value == AgentRun(run.id, Marked(run.row, marker))
      ensures Marked(run.row, marker) == run.row.(version := run.row.version + 1, claim := Some(marker))
      ensures store.rows == if r.Ok? then old(store.rows)[run.id := Marked(run.row, marker)] else old(store.rows)
    {
      r := store.Update(AgentRun(run.id, Marked(run.row, marker)), run.row.version);
    }

    method Enqueue(found: Option<AgentRun>, action: DispatchAction) returns (r: Result<(), StoreError>)
      modifies store
      ensures found.None? ==> r == Err(Validation)
      ensures found.Some? && IsTerminal(found.value.row.status) ==> r == Ok(()) && store.rows == old(store.rows)
      ensures found.Some? && !IsTerminal(found.value.row.status) ==>
                (r.Ok? <==> old(store.Accepts(found.value.id, found.value.row.version)))
      ensures r.Ok? && !IsTerminal(found.value.row.status) ==>
                store.rows == old(store.rows)[found.value.id := Marked(found.value.row, EnqueueMarker(action))]
      ensures r.Ok? && !IsTerminal(found.value.row.status) ==>
                Carries(found.value.row, store.rows[found.value.id], "queue", 0, 0, action)
      ensures r.Err? ==> store.rows == old(store.rows)
      ensures r.Err? && found.Some? ==>
                r.error == if found.value.id in old(store.rows) then Concurrency else NotFound
    {
      if found.None? { return Err(Validation); }
      if IsTerminal(found.value.row.status) { return Ok(()); }
      var written := Write(found.value, EnqueueMarker(action));
      return if written.Ok? then Ok(()) else Err(written.error);
    }

    /** Claims the first run of the page that is free and unchanged since the page was read. */
    method Claim(page: seq<AgentRun>, now: nat) returns (r: Result<Option<QueuedRun>, StoreError>, ghost at: nat)
      modifies store
      ensures at <= |page|
      ensures forall j | 0 <= j < at :: !Attemptable(page[j]) || page[j].id in old(store.rows)
      ensures forall j | 0 <= j < at ::
                !Attemptable(page[j]) || old(store.rows)[page[j].id].version != page[j].row.version
      ensures r == Ok(None) <==> at == |page|
      ensures at < |page| ==> Attemptable(page[at])
      ensures forall run | run in page :: Attemptable(run) <==>
                run.row.status !in {Completed, Failed, Cancelled, TimedOut}
                && (run.row.claim.None? || run.row.claim.value.at == 0)
      ensures r.Err? <==> at < |page| && page[at].id !in old(store.rows)
      ensures r.Err? ==> r.error == NotFound
      ensures r.Ok? && r.value.Some? ==>
                var marker := ClaimMarker(page[at].row, workerId, now);
                && at < |page| && old(store.Accepts(page[at].id, page[at].row.version))
                && r.value.value == QueuedRun(page[at].id, marker.action, marker.attempt, now, workerId)
                && store.rows == old(store.rows)[page[at].id := Marked(page[at].row, marker)]
      ensures r.Ok? && r.value.Some? ==>
                var run, item := page[at], r.value.value;
                && run.id in store.rows && item.runId == run.id
                && TakenBy(run.row, store.rows[run.id], workerId, now)
                && store.rows[run.id].claim == Some(Marker(item.claimedBy, item.claimedAt, item.attempt, item.action))
      ensures r.Err? || r.value.None? ==> store.rows == old(store.rows)
    {
      at := 0;
      for i := 0 to |page|
        invariant at == i && store.rows == old(store.rows)
        invariant forall j | 0 <= j < i :: !Attemptable(page[j]) || page[j].id in store.rows
        invariant forall j | 0 <= j < i ::
                    !Attemptable(page[j]) || store.rows[page[j].id].version != page[j].row.version
      {
        var run := page[i];
        if !IsTerminal(run.row.status) && IsFree(run.row.claim) {
          var marker := ClaimMarker(run.row, workerId, now);
          var written := Write(run, marker);
          if written.Ok? {
            return Ok(Some(QueuedRun(run.id, marker.action, marker.attempt, marker.at, workerId))), i;
          }
          if !written.error.Concurrency? { return Err(written.error), i; }
        }
        at := i + 1;
      }
      return Ok(None), |page|;
    }

    /** A version conflict is swallowed: somebody else moved the run on. */
    method Release(found: Option<AgentRun>, item: QueuedRun) returns (r: Result<(), StoreError>)
      modifies store
      ensures store.rows ==
              if found.Some? && old(store.Accepts(found.value.id, found.value.row.version))
              then old(store.rows)[found.value.id := Marked(found.value.row, ReleaseMarker(item.attempt, item.action))]
              else old(store.rows)
      ensures found.Some? && old(store.Accepts(found.value.id, found.value.row.version)) ==>
                Carries(found.value.row, store.rows[found.value.id], "queue", 0, item.attempt, item.action)
      ensures r.Err? <==> found.Some? && found.value.id !in old(store.rows)
      ensures r.Err? ==> r.error == NotFound
    {
      if found.None? { return Ok(()); }
      var written := Write(found.value, ReleaseMarker(item.attempt, item.action));
      return if written.Err? && !written.error.Concurrency? then Err(written.error) else Ok(());
    }

    method ReclaimStale(page: seq<AgentRun>, now: nat, olderThanMs: nat) returns (r: Result<seq<string>, StoreError>)
      modifies store
      ensures var swept := SweepStale(old(store.rows), page, workerId, now - olderThanMs);
              store.rows == swept.rows && r == if swept.missing then Err(NotFound) else Ok(swept.released)
    {
      var cutoff := now - olderThanMs;
      var released: seq<string> := [];
      for i := 0 to |page|
        invariant SweepStale(old(store.rows), page[..i], workerId, cutoff) == Sweep(store.rows, released, false)
      {
        var run := page[i];
        assert page[..i + 1][..i] == page[..i] && page[..i + 1][i] == run;
        if Stale(run.row.claim, workerId, cutoff) {
          var written := Write(run, ReclaimMarker(run.row.claim.value));
          if written.Ok? {
            released := released + [run.id];
          } else if !written.error.Concurrency? {
            SweepStops(old(store.rows), page, i + 1, workerId, cutoff);
            return Err(written.error);
          }
        }
      }
      assert page[..|page|] == page;
      return Ok(released);
    }
  }

  lemma {:induction false} SweepStops(rows: map<string, Row>, page: seq<AgentRun>, i: nat, workerId: string,
        cutoff: int)
    requires i <= |page| && SweepStale(rows, page[..i], workerId, cutoff).missing
    ensures SweepStale(rows, page, workerId, cutoff) == SweepStale(rows, page[..i], workerId, cutoff)
    decreases |page|
  {
    if i == |page| {
      assert page[..i] == page;
    } else {
      var shorter := page[..|page| - 1];
      assert shorter[..i] == page[..i];
      SweepStops(rows, shorter, i, workerId, cutoff);
    }
  }

  /** The fate of one run of the page: freed with its attempt count kept, or left alone. */
  predicate FreedRightly(rows: map<string, Row>, run: AgentRun, swept: Sweep, workerId: string, cutoff: int) {
    run.id in swept.released ==>
      && run.id in rows && rows[run.id].version == run.row.version
      && run.id in swept.rows && TakenFrom(run.row, swept.rows[run.id], workerId, cutoff)
  }

  predicate FreedWhenDue(rows: map<string, Row>, run: AgentRun, swept: Sweep, workerId: string, cutoff: int) {
    && run.row.claim.Some? && 0 < run.row.claim.value.at <= cutoff && run.row.claim.value.workerId != workerId ==>
      run.id in rows && (run.id in swept.released <==> rows[run.id].version == run.row.version)
  }

  predicate OthersKept(rows: map<string, Row>, swept: Sweep) {
    && swept.rows.Keys == rows.Keys
    && forall id | id in rows && id !in swept.released :: swept.rows[id] == rows[id]
  }

  predicate HasId(page: seq<AgentRun>, id: string) {
    exists run :: run in page && run.id == id
  }

  /** A sweep frees exactly the runs whose claim was stale and whose row is unchanged since it was read,
      reports exactly those, and touches no other row. */
  lemma {:induction false} SweepFreesExactlyReleased(rows: map<string, Row>, page: seq<AgentRun>, workerId: string,
        cutoff: int)
    requires forall i, j | 0 <= i < j < |page| :: page[i].id != page[j].id
    ensures var swept := SweepStale(rows, page, workerId, cutoff);
            && OthersKept(rows, swept)
            && (forall id | id in swept.released :: HasId(page, id))
            && (forall run | run in page :: FreedRightly(rows, run, swept, workerId, cutoff))
            && (!swept.missing ==> forall run | run in page :: FreedWhenDue(rows, run, swept, workerId, cutoff))
    decreases |page|
  {
    if page != [] {
      var shorter, run := page[..|page| - 1], page[|page| - 1];
      assert page == shorter + [run];
      SweepFreesExactlyReleased(rows, shorter, workerId, cutoff);
      var before := SweepStale(rows, shorter, workerId, cutoff);
      assert !HasId(shorter, run.id);
      SweepOneTouchesOne(rows, before, run, workerId, cutoff);
      SweepOneFrees(rows, before, run, workerId, cutoff);
      var swept := SweepStale(rows, page, workerId, cutoff);
      forall id | id in swept.released ensures HasId(page, id) {
        if id == run.id { assert run in page; } else { assert HasId(shorter, id); }
      }
      forall r | r in page ensures FreedRightly(rows, r, swept, workerId, cutoff) {
        if r in shorter { SweepOneKeepsFate(rows, before, run, r, workerId, cutoff); }
      }
      if !swept.missing {
        forall r | r in page ensures FreedWhenDue(rows, r, swept, workerId, cutoff) {
          if r in shorter { SweepOneKeepsFate(rows, before, run, r, workerId, cutoff); }
        }
      }
    }
  }

  lemma SweepOneTouchesOne(rows: map<string, Row>, before: Sweep, run: AgentRun, workerId: string, cutoff: int)
    requires OthersKept(rows, before)
    ensures OthersKept(rows, SweepOne(before, run, workerId, cutoff))
    ensures forall id | id in SweepOne(before, run, workerId, cutoff).released :: id in before.released || id == run.id
  {
    var after := SweepOne(before, run, workerId, cutoff);
    if after.released != before.released {
      assert run.id in after.released;
      assert forall id | id in before.released :: id in after.released;
    }
  }

  lemma SweepOneFrees(rows: map<string, Row>, before: Sweep, run: AgentRun, workerId: string, cutoff: int)
    requires OthersKept(rows, before) && run.id !in before.released
    ensures var after := SweepOne(before, run, workerId, cutoff);
            && FreedRightly(rows, run, after, workerId, cutoff)
            && (!after.missing ==> FreedWhenDue(rows, run, after, workerId, cutoff))
  {
    if run.id in before.rows { assert before.rows[run.id] == rows[run.id]; }
  }

  lemma SweepOneKeepsFate(rows: map<string, Row>, before: Sweep, run: AgentRun, other: AgentRun, workerId: string,
        cutoff: int)
    requires other.id != run.id
    ensures FreedRightly(rows, other, before, workerId, cutoff) ==>
              FreedRightly(rows, other, SweepOne(before, run, workerId, cutoff), workerId, cutoff)
    ensures FreedWhenDue(rows, other, before, workerId, cutoff) ==>
              FreedWhenDue(rows, other, SweepOne(before, run, workerId, cutoff), workerId, cutoff)
  {
    assert other.id in SweepOne(before, run, workerId, cutoff).released <==> other.id in before.released;
  }

  /** The durable rows of one run: what a session writes to. */
  class DurableRun {
    var row: Row
    var stateVersion: nat

    constructor (row: Row, stateVersion: nat)
      ensures this.row == row && this.stateVersion == stateVersion
    {
      this.row, this.stateVersion := row, stateVersion;
    }

    method UpdateRow(updated: Row, expected: nat) returns (ok: bool)
      modifies this`row
      ensures ok <==> old(row).version == expected
      ensures row == if ok then updated else old(row)
    {
      ok := row.version == expected;
      if ok { row := updated; }
    }

    method SaveState(version: nat, expected: nat) returns (ok: bool)
      modifies this`stateVersion
      ensures ok <==> old(stateVersion) == expected
      ensures stateVersion == if ok then version else old(stateVersion)
    {
      ok := stateVersion == expected;
      if ok { stateVersion := version; }
    }
  }

  /** The mutable view of one executing run.  The ghost fields are the bookkeeping of `RunOwnership`. */
  class RunSession {
    const store: DurableRun
    const id: Id
    var run: Row
    var state: nat
    ghost var base: nat
    ghost var misses: nat
    ghost var stale: bool

    constructor (store: DurableRun, id: Id, run: Row, state: nat)
      ensures this.store == store && this.id == id && this.run == run && this.state == state
      ensures base == run.version && misses == 0 && !stale
    {
      this.store, this.id, this.run, this.state := store, id, run, state;
      base, misses, stale := run.version, 0, false;
    }

    /** This session and its store, as a world of `RunOwnership` in which it is the only actor. */
    ghost function View(log: seq<Write>, rejected: bool): World
      reads this, store
    {
      World(store.row, store.stateVersion, log,
            map[id := Live(Session(run, state, Idle, base, misses, stale))], {}, rejected)
    }

    /** Walk the path `findPath` found, one hop at a time. */
    method Walk(target: RunState) returns (moved: bool)
      modifies this`run
      ensures moved == CanAdvance(old(run).status, target)
      ensures run == if moved then old(run).(status := target) else old(run)
    {
      var path := FindRunPath(run.status, target);
      moved := |path| > 0;
      for i := 0 to |path|
        invariant run == old(run).(status := if i == 0 then old(run).status else path[i - 1].to)
      {
        run := run.(status := path[i].to);
      }
    }

    /** The session writes its row at an unchanged version: the step `AdvanceSession` of `RunOwnership`. */
    method AdvanceTo(target: RunState, ghost log: seq<Write>, ghost rejected: bool) returns (ok: bool)
      modifies this, store`row
      ensures !old(CanAdvance(run.status, target)) ==>
                ok && View(log, rejected) == old(View(log, rejected))
      ensures old(CanAdvance(run.status, target)) ==>
                && (ok <==> old(store.row.version == run.version))
                && View(log, rejected || !ok) == AdvanceSessionTo(old(View(log, rejected)), id, target)
                && run == old(run).(status := target) && store.row == if ok then run else old(store.row)
    {
      ghost var before := View(log, rejected);
      var moved := Walk(target);
      if !moved { return true; }
      ok := store.UpdateRow(run, run.version);
      if !ok { stale := true; }
      assert View(log, rejected || !ok).actors == AdvanceSessionTo(before, id, target).actors;
    }

    /** The three writes of `persist`, uninterrupted: by `PersistInOnePiece` the steps `PersistRow`,
        `PersistCounters` and `PersistState`, cut short after the first if the run row was rejected. */
    method Persist(ghost log: seq<Write>, ghost rejected: bool)
      returns (ok: bool, ghost log': seq<Write>, ghost rejected': bool)
      modifies this, store
      ensures var before := old(View(log, rejected));
              View(log', rejected') == if PersistAccepted(before, id) then PersistOutcome(before, id)
                                       else PersistRunRow(before, id)
      ensures ok <==> old(store.row.version == run.version && store.stateVersion == state)
      ensures run == old(run).(version := old(run).version + 1) && state == run.version
      ensures store.row == if old(store.row.version == run.version) then run else old(store.row)
      ensures store.stateVersion == if ok then state else old(store.stateVersion)
    {
      ghost var before := View(log, rejected);
      var expected := run.version;
      var expectedState := state;
      log', rejected' := log, rejected;
      run := run.(version := expected + 1);
      state := run.version;
      ok := store.UpdateRow(run, expected);
      if !ok {
        misses, stale, rejected' := misses + 1, true, true;
        assert View(log', rejected').actors == PersistRunRow(before, id).actors;
        return;
      }
      base, misses, log' := run.version, 0, log + [Write(id, Persisted, run.claim)];
      ok := store.SaveState(state, expectedState);
      if !ok { stale, rejected' := true, true; }
      assert View(log', rejected').actors == PersistOutcome(before, id).actors;
    }
  }

  method FindRunPath(from: RunState, to: RunState) returns (path: seq<BF.Hop<RunState>>)
    ensures |path| > 0 <==> CanAdvance(from, to)
    ensures |path| > 0 ==> path[|path| - 1].to == to
  {
    RunTableTriggersKnown();
    path := FindPath(RunTable(), from, to);
  }

  /** The length of the path both walkers take; by `FindIsShortest` the distance in the table. */
  function HopCount(from: RunState, to: RunState): nat {
    |PathOf(BF.Find(RunTable(), from, to))|
  }

  /** What others leave in the run row just before each hop's write; nothing where they do not touch it. */
  type Others = nat -> Option<Row>

  /** The version the write of hop `i` finds when every hop before it went through. */
  function VersionFound(stored: Row, read: Row, others: Others, i: nat): nat {
    match others(i)
    case Some(row) => row.version
    case None => if i == 0 then stored.version else read.version + i
  }

  predicate Uncontended(stored: Row, read: Row, others: Others, hops: nat) {
    forall i: nat | i < hops :: VersionFound(stored, read, others, i) == read.version + i
  }

  /** `advanceRunTo`: an operator moves a run it read earlier, one bumped write per hop.  Whatever others write
      between the hops, the walk goes through exactly when every hop finds the version the previous one left, and then
      costs one version per hop of a shortest path; otherwise it stops at the first hop that does not, whose write
      leaves the row as others made it. */
  method AdvanceRunTo(store: DurableRun, read: Row, target: RunState, others: Others)
    returns (ok: bool, run: Row, ghost at: nat)
    modifies store`row
    ensures !CanAdvance(read.status, target) ==> ok && run == read && store.row == old(store.row)
    ensures CanAdvance(read.status, target) ==>
              var hops := HopCount(read.status, target);
              && (ok <==> Uncontended(old(store.row), read, others, hops))
              && (ok ==> store.row == run == read.(status := target, version := read.version + hops))
              && (!ok ==> StoppedAt(old(store.row), read, others, hops, at, store.row))
  {
    ok, run, at := AdvanceAlong(RunTable(), store, read, target, others);
  }

  /** The hop at `at` is the first to find another version, and what it found is still stored. */
  ghost predicate StoppedAt(stored: Row, read: Row, others: Others, hops: nat, at: nat, left: Row) {
    && at < hops && Uncontended(stored, read, others, at)
    && VersionFound(stored, read, others, at) != read.version + at
    && left == if others(at).Some? then others(at).value else stored
  }

  /** The search and the walk, over any table. */
  method AdvanceAlong(table: BF.Table<RunState>, store: DurableRun, read: Row, target: RunState, others: Others)
    returns (ok: bool, run: Row, ghost at: nat)
    requires BF.Closed(table) && read.status in table
    modifies store`row
    ensures BF.Find(table, read.status, target).None? ==> ok && run == read && store.row == old(store.row)
    ensures BF.Find(table, read.status, target).Some? ==>
              var hops := |BF.Find(table, read.status, target).value|;
              && (ok <==> Uncontended(old(store.row), read, others, hops))
              && (ok ==> store.row == run == read.(status := target, version := read.version + hops))
              && (!ok ==> StoppedAt(old(store.row), read, others, hops, at, store.row))
  {
    if read.status == target { return true, read, 0; }
    BF.FoundPathEnds(table, read.status, target);
    var path := SearchForAdvance(table, read.status, target);
    if path.None? { return true, read, 0; }
    ok, run, at := WriteHops(store, read, path.value, others);
  }

  method WriteHops(store: DurableRun, read: Row, hops: seq<BF.Hop<RunState>>, others: Others)
    returns (ok: bool, run: Row, ghost at: nat)
    requires hops != []
    modifies store`row
    ensures ok <==> Uncontended(old(store.row), read, others, |hops|)
    ensures ok ==> store.row == run == read.(status := hops[|hops| - 1].to, version := read.version + |hops|)
    ensures !ok ==> StoppedAt(old(store.row), read, others, |hops|, at, store.row)
  {
    run, ok, at := read, true, 0;
    for i := 0 to |hops|
      invariant ok && run == read.(status := if i == 0 then read.status
                else hops[i - 1].to, version := read.version + i)
      invariant Uncontended(old(store.row), read, others, i)
      invariant store.row == if i == 0 then old(store.row) else run
    {
      if others(i).Some? { store.row := others(i).value; }
      assert store.row.version == VersionFound(old(store.row), read, others, i);
      at := i;
      run := run.(status := hops[i].to, version := run.version + 1);
      ok := store.UpdateRow(run, run.version - 1);
      if !ok { return; }
    }
  }
}
