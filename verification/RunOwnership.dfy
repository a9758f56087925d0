/** Who may write to a run. */
module RunOwnership {
  // Any number of queue operations, operators and run sessions work on one run row through compare-and-set writes;
  // every step below is one of their atomic store accesses, and a crash may remove any of them between two steps.

  import opened Wrappers
  import opened BreadthFirst
  import opened RunStates
  import opened RunClaims

  type Id = nat

  datatype Kind = Enqueued | Claimed | Released | Reclaimed | Started | Hopped | Persisted

  /** One accepted write that bumped the version: its author, what it was, and the claim it left. */
  datatype Write = Write(author: Id, kind: Kind, claim: Option<Marker>)

  /** How far a `persist` has come: run row, then usage counters, then state row. */
  datatype Phase = Idle | RowWritten(expected: nat) | CountersWritten(expected: nat)

  /** `row` and `state` are the session's own copies.  `base` is the version its last accepted
      bumping write left, `misses` how many rejected ones followed, `stale` whether any write
      of this session was ever rejected. */
  datatype Session = Session(row: Row, state: nat, phase: Phase, base: nat, misses: nat, stale: bool)

  /** An operation that has read the row, a `start` whose write was accepted but which has not yet
      loaded the state row, or a running session. */
  datatype Actor = Reading(row: Row) | Starting(row: Row) | Live(session: Session)

  datatype World = World(
    row: Row,
    stateVersion: nat,
    log: seq<Write>,
    actors: map<Id, Actor>,
    checkpoints: set<nat>,
    rejected: bool)

  /** A run whose creation has just completed: row and state row both carry version 1. */
  const CREATED_RUN := World(Row(1, Created, None), 1, [], map[], {}, false)

  datatype Step =
    | Read(id: Id)
    | Enqueue(id: Id, action: DispatchAction)
    | Claim(id: Id, worker: string, now: nat)
    | Release(id: Id, attempt: nat, action: DispatchAction)
    | Reclaim(id: Id, worker: string, cutoff: int)
    | StartWrite(id: Id)
    | StartLoad(id: Id)
    | AdvanceRow(id: Id, to: RunState)
    | AdvanceSession(id: Id, to: RunState)
    | PersistRow(id: Id)
    | PersistCounters(id: Id)
    | PersistState(id: Id)
    | SaveCheckpoint(id: Id)
    | SaveStoredState
    | RestoreState(version: nat)
    | Crash(id: Id)

  predicate IsReading(w: World, id: Id) { id in w.actors && w.actors[id].Reading? }

  predicate IsLive(w: World, id: Id) { id in w.actors && w.actors[id].Live? }

  predicate IsIdle(w: World, id: Id) { IsLive(w, id) && w.actors[id].session.phase.Idle? }

  /** A session advances only along legal hops, and not to the state it is already in. */
  predicate CanAdvance(from: RunState, to: RunState) { Find(RunTable(), from, to).Some? }

  predicate Enabled(w: World, step: Step) {
    match step
    case Read(id) => id !in w.actors
    case Enqueue(id, _) => IsReading(w, id) && !IsTerminal(w.actors[id].row.status)
    case Claim(id, _, now) =>
      IsReading(w, id) && Claimable(w.actors[id].row.status) && IsFree(w.actors[id].row.claim) && now > 0
    case Release(id, _, _) => IsReading(w, id)
    case Reclaim(id, worker, cutoff) =>
      IsReading(w, id) && Claimable(w.actors[id].row.status) && Stale(w.actors[id].row.claim, worker, cutoff)
    case StartWrite(id) =>
      IsReading(w, id) && !IsTerminal(w.actors[id].row.status) && !w.actors[id].row.status.Paused?
    case StartLoad(id) => id in w.actors && w.actors[id].Starting?
    case AdvanceRow(id, to) => IsReading(w, id) && to in AllowedTargets(w.actors[id].row.status)
    case AdvanceSession(id, to) => IsIdle(w, id) && CanAdvance(w.actors[id].session.row.status, to)
    case PersistRow(id) => IsIdle(w, id)
    case PersistCounters(id) => IsLive(w, id) && w.actors[id].session.phase.RowWritten?
    case PersistState(id) => IsLive(w, id) && w.actors[id].session.phase.CountersWritten?
    case SaveCheckpoint(id) => IsIdle(w, id) && !w.actors[id].session.stale
    case SaveStoredState => true
    case RestoreState(version) => version in w.checkpoints
    case Crash(id) => id in w.actors
  }

  /** A compare-and-set by an operation that read `read`: accepted only if the version is unchanged. */
  function CompareAndSet(w: World, id: Id, read: Row, updated: Row, kind: Kind, next: Option<Actor>): World {
    if w.row.version != read.version then w.(actors := w.actors - {id})
    else w.(row := updated, log := w.log + [Write(id, kind, updated.claim)],
            actors := if next.Some? then w.actors[id := next.value] else w.actors - {id})
  }

  function Mark(w: World, id: Id, marker: Marker, kind: Kind): World
    requires IsReading(w, id)
  {
    CompareAndSet(w, id, w.actors[id].row, Marked(w.actors[id].row, marker), kind, None)
  }

  /** `advanceTo` writes the whole row without a version bump. */
  function AdvanceSessionTo(w: World, id: Id, to: RunState): World
    requires IsLive(w, id)
  {
    var s := w.actors[id].session;
    var local := s.row.(status := to);
    if w.row.version == s.row.version
    then w.(row := local, actors := w.actors[id := Live(s.(row := local))])
    else w.(actors := w.actors[id := Live(s.(row := local, stale := true))], rejected := true)
  }

  /** The first write of `persist`: the local version is bumped before the write is accepted. */
  function PersistRunRow(w: World, id: Id): World
    requires IsLive(w, id)
  {
    var s := w.actors[id].session;
    var local := s.row.(version := s.row.version + 1);
    if w.row.version == s.row.version then
      var s' := s.(row := local, state := local.version, phase := RowWritten(s.state), base := local.version,
          misses := 0);
      w.(row := local, log := w.log + [Write(id, Persisted, local.claim)], actors := w.actors[id := Live(s')])
    else
      var s' := s.(row := local, state := local.version, misses := s.misses + 1, stale := true);
      w.(actors := w.actors[id := Live(s')], rejected := true)
  }

  /** The last write of `persist`: compare-and-set on the version the stored state carried. */
  function PersistStateRow(w: World, id: Id): World
    requires IsLive(w, id) && w.actors[id].session.phase.CountersWritten?
  {
    var s := w.actors[id].session;
    if w.stateVersion == s.phase.expected
    then w.(stateVersion := s.state, actors := w.actors[id := Live(s.(phase := Idle))])
    else w.(actors := w.actors[id := Live(s.(phase := Idle, stale := true))], rejected := true)
  }

  function Apply(w: World, step: Step): World
    requires Enabled(w, step)
  {
    match step
    case Read(id) => w.(actors := w.actors[id := Reading(w.row)])
    case Enqueue(id, action) => Mark(w, id, EnqueueMarker(action), Enqueued)
    case Claim(id, worker, now) => Mark(w, id, ClaimMarker(w.actors[id].row, worker, now), Claimed)
    case Release(id, attempt, action) => Mark(w, id, ReleaseMarker(attempt, action), Released)
    case Reclaim(id, _, _) => Mark(w, id, ReclaimMarker(w.actors[id].row.claim.value), Reclaimed)
    case StartWrite(id) =>
      var r := w.actors[id].row;
      var r' := r.(version := r.version + 1, status := Initializing);
      CompareAndSet(w, id, r, r', Started, Some(Starting(r')))
    case StartLoad(id) =>
      var r := w.actors[id].row;
      w.(actors := w.actors[id := Live(Session(r, w.stateVersion, Idle, r.version, 0, false))])
    case AdvanceRow(id, to) =>
      var r := w.actors[id].row;
      var r' := r.(version := r.version + 1, status := to);
      CompareAndSet(w, id, r, r', Hopped, Some(Reading(r')))
    case AdvanceSession(id, to) => AdvanceSessionTo(w, id, to)
    case PersistRow(id) => PersistRunRow(w, id)
    case PersistCounters(id) =>
      var s := w.actors[id].session;
      w.(actors := w.actors[id := Live(s.(phase := CountersWritten(s.phase.expected)))])
    case PersistState(id) => PersistStateRow(w, id)
    case SaveCheckpoint(id) => w.(checkpoints := w.checkpoints + {w.actors[id].session.state})
    case SaveStoredState => w.(checkpoints := w.checkpoints + {w.stateVersion})
    case RestoreState(version) => w.(stateVersion := version)
    case Crash(id) => w.(actors := w.actors - {id})
  }

  /** Any list of steps is a run; a step that is not enabled does nothing. */
  function Run(w: World, steps: seq<Step>): World
    decreases |steps|
  {
    if steps == [] then w
    else
      var before := Run(w, steps[..|steps| - 1]);
      var step := steps[|steps| - 1];
      if Enabled(before, step) then Apply(before, step) else before
  }

  // ------------------------------------------------------------------ what every step keeps

  ghost predicate Authored(w: World, id: Id, version: nat) {
    2 <= version <= w.row.version && |w.log| + 1 == w.row.version && w.log[version - 2].author == id
  }

  ghost predicate ActorInv(w: World, id: Id, a: Actor) {
    match a
    case Reading(r) => 1 <= r.version <= w.row.version
    case Starting(r) => Authored(w, id, r.version)
    case Live(s) =>
      && Authored(w, id, s.base)
      && s.row.version == s.base + s.misses
      && (!s.stale ==> s.misses == 0 && s.state <= w.row.version)
      && (!s.phase.Idle? ==> s.misses == 0 && s.state == s.row.version)
      && (s.stale ==> w.rejected)
  }

  ghost predicate Inv(w: World) {
    && |w.log| + 1 == w.row.version
    && w.stateVersion <= w.row.version
    && (forall v | v in w.checkpoints :: v <= w.row.version)
    && (forall id | id in w.actors :: ActorInv(w, id, w.actors[id]))
  }

  /** The log only grows, one entry per version, and a rejection is never forgotten. */
  ghost predicate Extends(w: World, w': World) {
    && w.log <= w'.log
    && |w'.log| + 1 == w'.row.version
    && (w.rejected ==> w'.rejected)
  }

  /** A step that touches at most actor `id` keeps the invariant if it keeps it for that actor. */
  lemma InvFromOneActor(w: World, w': World, id: Id)
    requires Inv(w) && Extends(w, w')
    requires w'.stateVersion <= w'.row.version && forall v | v in w'.checkpoints :: v <= w'.row.version
    requires forall j | j in w'.actors && j != id :: j in w.actors && w'.actors[j] == w.actors[j]
    requires id in w'.actors ==> ActorInv(w', id, w'.actors[id])
    ensures Inv(w')
  {
    forall j | j in w'.actors ensures ActorInv(w', j, w'.actors[j]) {
      if j != id {
        assert ActorInv(w, j, w.actors[j]);
        match w.actors[j]
        case Reading(_) =>
        case Starting(r) => assert w'.log[r.version - 2] == w.log[r.version - 2];
        case Live(s) => assert w'.log[s.base - 2] == w.log[s.base - 2];
      }
    }
  }

  lemma CompareAndSetKeepsInv(w: World, id: Id, read: Row, updated: Row, kind: Kind, next: Option<Actor>)
    requires Inv(w) && updated.version == read.version + 1
    requires next == None || next == Some(Reading(updated)) || next == Some(Starting(updated))
    ensures Inv(CompareAndSet(w, id, read, updated, kind, next))
  {
    InvFromOneActor(w, CompareAndSet(w, id, read, updated, kind, next), id);
  }

  lemma SessionStepKeepsInv(w: World, step: Step)
    requires Inv(w) && Enabled(w, step)
    requires step.AdvanceSession? || step.PersistRow? || step.PersistCounters? || step.PersistState?
    ensures Inv(Apply(w, step))
  {
    assert ActorInv(w, step.id, w.actors[step.id]);
    InvFromOneActor(w, Apply(w, step), step.id);
  }

  lemma QueueStepKeepsInv(w: World, step: Step)
    requires Inv(w) && Enabled(w, step)
    requires step.Enqueue? || step.Claim? || step.Release? || step.Reclaim?
    ensures Inv(Apply(w, step))
  {
    var read := w.actors[step.id].row;
    match step
    case Enqueue(id, action) =>
      CompareAndSetKeepsInv(w, id, read, Marked(read, EnqueueMarker(action)), Enqueued, None);
    case Claim(id, worker, now) =>
      CompareAndSetKeepsInv(w, id, read, Marked(read, ClaimMarker(read, worker, now)), Claimed, None);
    case Release(id, attempt, action) =>
      CompareAndSetKeepsInv(w, id, read, Marked(read, ReleaseMarker(attempt, action)), Released, None);
    case Reclaim(id, _, _) =>
      CompareAndSetKeepsInv(w, id, read, Marked(read, ReclaimMarker(read.claim.value)), Reclaimed, None);
  }

  lemma OperatorStepKeepsInv(w: World, step: Step)
    requires Inv(w) && Enabled(w, step) && (step.StartWrite? || step.AdvanceRow?)
    ensures Inv(Apply(w, step))
  {
    var r := w.actors[step.id].row;
    match step
    case StartWrite(id) =>
      var r' := r.(version := r.version + 1, status := Initializing);
      CompareAndSetKeepsInv(w, id, r, r', Started, Some(Starting(r')));
    case AdvanceRow(id, to) =>
      var r' := r.(version := r.version + 1, status := to);
      CompareAndSetKeepsInv(w, id, r, r', Hopped, Some(Reading(r')));
  }

  /** The steps that write neither row. */
  lemma SilentStepKeepsInv(w: World, step: Step)
    requires Inv(w) && Enabled(w, step)
    requires step.Read? || step.StartLoad? || step.SaveCheckpoint? || step.Crash?
    ensures Inv(Apply(w, step))
  {
    if step.id in w.actors { assert ActorInv(w, step.id, w.actors[step.id]); }
    InvFromOneActor(w, Apply(w, step), step.id);
  }

  lemma StoreStepKeepsInv(w: World, step: Step)
    requires Inv(w) && Enabled(w, step) && (step.SaveStoredState? || step.RestoreState?)
    ensures Inv(Apply(w, step))
  {
    forall id | id in w.actors ensures ActorInv(Apply(w, step), id, w.actors[id]) {
      assert ActorInv(w, id, w.actors[id]);
    }
  }

  lemma {:induction false} StepKeepsInv(w: World, step: Step)
    requires Inv(w) && Enabled(w, step)
    ensures Inv(Apply(w, step))
  {
    match step
    case Enqueue(_, _) | Claim(_, _, _) | Release(_, _, _) | Reclaim(_, _, _) => QueueStepKeepsInv(w, step);
    case StartWrite(_) | AdvanceRow(_, _) => OperatorStepKeepsInv(w, step);
    case AdvanceSession(_, _) | PersistRow(_) | PersistCounters(_) | PersistState(_) => SessionStepKeepsInv(w, step);
    case Read(_) | StartLoad(_) | SaveCheckpoint(_) | Crash(_) => SilentStepKeepsInv(w, step);
    case SaveStoredState | RestoreState(_) => StoreStepKeepsInv(w, step);
  }

  lemma {:induction false} RunKeepsInv(steps: seq<Step>)
    ensures Inv(Run(CREATED_RUN, steps))
    decreases |steps|
  {
    if steps != [] {
      RunKeepsInv(steps[..|steps| - 1]);
      var before, step := Run(CREATED_RUN, steps[..|steps| - 1]), steps[|steps| - 1];
      if Enabled(before, step) { StepKeepsInv(before, step); }
    }
  }

  ghost predicate Reached(w: World) {
    exists steps :: Run(CREATED_RUN, steps) == w
  }

  lemma ReachedInv(w: World)
    requires Reached(w)
    ensures Inv(w)
  {
    var steps :| Run(CREATED_RUN, steps) == w;
    RunKeepsInv(steps);
  }

  lemma RunSnoc(w: World, steps: seq<Step>, step: Step)
    ensures Run(w, steps + [step])
            == if Enabled(Run(w, steps), step) then Apply(Run(w, steps), step) else Run(w, steps)
  {
    assert (steps + [step])[..|steps + [step]| - 1] == steps;
  }

  // ------------------------------------------------------------------ ownership of versions

  function HeldRow(a: Actor): Row {
    match a
    case Reading(r) => r
    case Starting(r) => r
    case Live(s) => s.row
  }

  /** A session from the moment its `start` was accepted up to its first rejected write. */
  predicate Owns(w: World, id: Id) {
    id in w.actors && (w.actors[id].Starting? || (w.actors[id].Live? && !w.actors[id].session.stale))
  }

  /** The accepted version-bumping writes that came after the one that made `version`. */
  function WritesAfter(w: World, version: nat): seq<Write>
    requires 1 <= version <= |w.log| + 1
  {
    w.log[version - 1..]
  }

  /** In every reachable world, sessions that never had a write rejected hold pairwise distinct
      versions no greater than the stored one, so at most one of them can write. */
  lemma OwnersHoldDistinctVersions(w: World, a: Id, b: Id)
    requires Reached(w) && a != b && Owns(w, a) && Owns(w, b)
    ensures HeldRow(w.actors[a]).version != HeldRow(w.actors[b]).version
    ensures HeldRow(w.actors[a]).version <= w.row.version && HeldRow(w.actors[b]).version <= w.row.version
  {
    ReachedInv(w);
    assert ActorInv(w, a, w.actors[a]) && ActorInv(w, b, w.actors[b]);
  }

  predicate PersistAccepted(w: World, id: Id)
    requires IsLive(w, id)
  {
    w.row.version == w.actors[id].session.row.version
  }

  /** A session that never had a write rejected persists successfully exactly when no other
      version-bumping write hit the run since its own previous one. */
  lemma PersistMeansUndisturbed(w: World, id: Id)
    requires Reached(w) && Owns(w, id) && Enabled(w, PersistRow(id))
    ensures var s := w.actors[id].session;
            && 2 <= s.base <= |w.log| + 1
            && w.log[s.base - 2].author == id
            && (PersistAccepted(w, id) <==> WritesAfter(w, s.base) == [])
            && (PersistAccepted(w, id) <==> Apply(w, PersistRow(id)).row.version == w.row.version + 1)
            && (!PersistAccepted(w, id) ==> Apply(w, PersistRow(id)).row == w.row)
  {
    ReachedInv(w);
    assert ActorInv(w, id, w.actors[id]);
  }

  /** What the version check really decides, for every session, stale or not: a write goes through
      exactly when as many writes of others landed since its last accepted one as it had rejected. */
  lemma AcceptedIffMissesMatch(w: World, id: Id)
    requires Reached(w) && IsLive(w, id)
    ensures var s := w.actors[id].session;
            2 <= s.base <= |w.log| + 1 && (PersistAccepted(w, id) <==> |WritesAfter(w, s.base)| == s.misses)
  {
    ReachedInv(w);
    assert ActorInv(w, id, w.actors[id]);
  }

  /** The promise that a stale session can never overwrite newer state fails: a session whose write
      was rejected once gets its next one accepted and shuts out the rightful owner. */
  lemma StaleSessionOverwrites() returns (steps: seq<Step>)
    ensures var w := Run(CREATED_RUN, steps);
            && IsIdle(w, 1) && w.actors[1].session.stale
            && Owns(w, 2) && IsIdle(w, 2) && PersistAccepted(w, 2)
            && PersistAccepted(w, 1)
            && var w' := Apply(w, PersistRow(1));
               w'.log[|w'.log| - 1].author == 1 && IsIdle(w', 2) && !PersistAccepted(w', 2)
  {
    var s1 := [Read(1)];
    var s2 := s1 + [StartWrite(1)];
    var s3 := s2 + [StartLoad(1)];
    var s4 := s3 + [Read(2)];
    var s5 := s4 + [StartWrite(2)];
    var s6 := s5 + [StartLoad(2)];
    steps := s6 + [PersistRow(1)];
    RunSnoc(CREATED_RUN, [], Read(1));
    assert [] + [Read(1)] == s1;
    RunSnoc(CREATED_RUN, s1, StartWrite(1));
    RunSnoc(CREATED_RUN, s2, StartLoad(1));
    RunSnoc(CREATED_RUN, s3, Read(2));
    RunSnoc(CREATED_RUN, s4, StartWrite(2));
    RunSnoc(CREATED_RUN, s5, StartLoad(2));
    RunSnoc(CREATED_RUN, s6, PersistRow(1));
  }

  // ------------------------------------------------------------------ crashes and restarts

  predicate Startable(w: World, id: Id) {
    id !in w.actors && !IsTerminal(w.row.status) && !w.row.status.Paused?
  }

  function Started3(w: World, id: Id): World {
    TryStep(TryStep(TryStep(w, Read(id)), StartWrite(id)), StartLoad(id))
  }

  function Persisted3(w: World, id: Id): World {
    TryStep(TryStep(TryStep(w, PersistRow(id)), PersistCounters(id)), PersistState(id))
  }

  /** `persist` in one piece, once its run row is accepted. */
  function PersistOutcome(w: World, id: Id): World
    requires IsIdle(w, id)
  {
    var s := w.actors[id].session;
    var local := s.row.(version := s.row.version + 1);
    var saved := w.stateVersion == s.state;
    World(local, if saved then local.version else w.stateVersion, w.log + [Write(id, Persisted, local.claim)],
          w.actors[id := Live(Session(local, local.version, Idle, local.version, 0, s.stale || !saved))],
          w.checkpoints, w.rejected || !saved)
  }

  lemma PersistInOnePiece(w: World, id: Id)
    requires IsIdle(w, id) && PersistAccepted(w, id)
    ensures Persisted3(w, id) == PersistOutcome(w, id)
  {
    var w1 := Apply(w, PersistRow(id));
    assert TryStep(w, PersistRow(id)) == w1;
    var w2 := Apply(w1, PersistCounters(id));
    assert TryStep(w1, PersistCounters(id)) == w2;
    var w3 := Apply(w2, PersistState(id));
    assert TryStep(w2, PersistState(id)) == w3;
    assert w3.actors == PersistOutcome(w, id).actors;
  }

  /** A session rebuilt by `start` carries exactly the two stored versions. */
  lemma StartCarriesStoredVersions(w: World, id: Id)
    requires Startable(w, id)
    ensures Started3(w, id) == Run(w, [Read(id), StartWrite(id), StartLoad(id)])
    ensures var w' := Started3(w, id);
            && IsIdle(w', id) && Owns(w', id)
            && w'.row == w.row.(version := w.row.version + 1, status := Initializing)
            && w'.actors[id].session.row == w'.row
            && w'.actors[id].session.state == w'.stateVersion == w.stateVersion
            && w'.rejected == w.rejected
  {
    RunThree(w, Read(id), StartWrite(id), StartLoad(id));
  }

  /** A `persist` by a session whose two copies match the store is accepted in full, all three writes. */
  lemma PersistInFull(w: World, id: Id)
    requires IsIdle(w, id) && Owns(w, id)
    requires w.actors[id].session.row == w.row && w.actors[id].session.state == w.stateVersion
    ensures Persisted3(w, id) == Run(w, [PersistRow(id), PersistCounters(id), PersistState(id)])
    ensures var w' := Persisted3(w, id);
            && IsIdle(w', id) && Owns(w', id)
            && w'.row == w.row.(version := w.row.version + 1)
            && w'.stateVersion == w'.row.version
            && w'.rejected == w.rejected
  {
    RunThree(w, PersistRow(id), PersistCounters(id), PersistState(id));
  }

  /** What a running session itself does to the store, `persist` write by write. */
  predicate IsOwn(step: Step, id: Id) {
    match step
    case AdvanceSession(i, _) => i == id
    case PersistRow(i) => i == id
    case PersistCounters(i) => i == id
    case PersistState(i) => i == id
    case SaveCheckpoint(i) => i == id
    case _ => false
  }

  /** Between the steps of session `id` anything may happen, crashes of others included, that changes
      neither the run row nor the state row. */
  predicate NobodyElseWrites(w: World, steps: seq<Step>, id: Id)
    decreases |steps|
  {
    steps != [] ==>
      var before, step := Run(w, steps[..|steps| - 1]), steps[|steps| - 1];
      && NobodyElseWrites(w, steps[..|steps| - 1], id)
      && (IsOwn(step, id)
          || (step != Crash(id) && TryStep(before, step).row == before.row
              && TryStep(before, step).stateVersion == before.stateVersion))
  }

  /** A session whose copies match the store, however far its `persist` has come. */
  predicate InStep(w: World, id: Id) {
    && IsLive(w, id)
    && var s := w.actors[id].session;
       && !s.stale && s.row == w.row
       && match s.phase
          case Idle => s.state == w.stateVersion
          case RowWritten(expected) => expected == w.stateVersion && s.state == w.row.version
          case CountersWritten(expected) => expected == w.stateVersion && s.state == w.row.version
  }

  lemma OwnStepStaysInStep(w: World, step: Step, id: Id)
    requires InStep(w, id) && IsOwn(step, id)
    ensures InStep(TryStep(w, step), id)
    ensures TryStep(w, step).row.version >= w.row.version && TryStep(w, step).rejected == w.rejected
  {
  }

  /** A step that leaves both rows alone is not session `id`'s own doing, so it leaves the session alone too. */
  lemma OtherStepStaysInStep(w: World, step: Step, id: Id)
    requires InStep(w, id) && !IsOwn(step, id) && step != Crash(id)
    requires TryStep(w, step).row == w.row && TryStep(w, step).stateVersion == w.stateVersion
    ensures InStep(TryStep(w, step), id)
  {
    assert id in TryStep(w, step).actors && TryStep(w, step).actors[id] == w.actors[id];
  }

  lemma {:induction false} StaysInStep(w: World, steps: seq<Step>, id: Id)
    requires InStep(w, id) && NobodyElseWrites(w, steps, id)
    ensures InStep(Run(w, steps), id) && Run(w, steps).row.version >= w.row.version
    decreases |steps|
  {
    if steps != [] {
      var shorter, step := steps[..|steps| - 1], steps[|steps| - 1];
      StaysInStep(w, shorter, id);
      assert Run(w, steps) == TryStep(Run(w, shorter), step);
      if IsOwn(step, id) {
        OwnStepStaysInStep(Run(w, shorter), step, id);
      } else {
        OtherStepStaysInStep(Run(w, shorter), step, id);
      }
    }
  }

  /** Whatever happened before, crashes between the writes of `persist` included, the state row never
      runs ahead of the run row; and as long as nobody else writes, a restarted run is never refused:
      whatever steps and persists it has taken since, its next `persist` is accepted in full. */
  lemma RestartAfterCrash(w: World, id: Id, steps: seq<Step>)
    requires Reached(w) && Startable(w, id) && NobodyElseWrites(Started3(w, id), steps, id)
    ensures w.stateVersion <= w.row.version
    ensures var v := Run(Started3(w, id), steps);
            && Owns(v, id) && IsLive(v, id)
            && v.actors[id].session.row == v.row && v.row.version > w.row.version
            && (IsIdle(v, id) ==>
                  var w' := Persisted3(v, id);
                  && IsIdle(w', id) && Owns(w', id)
                  && w'.row == v.row.(version := v.row.version + 1)
                  && w'.stateVersion == w'.row.version
                  && w'.rejected == v.rejected)
  {
    ReachedInv(w);
    StartCarriesStoredVersions(w, id);
    StaysInStep(Started3(w, id), steps, id);
    var v := Run(Started3(w, id), steps);
    if IsIdle(v, id) { PersistInFull(v, id); }
  }

  function TryStep(w: World, step: Step): World {
    if Enabled(w, step) then Apply(w, step) else w
  }

  lemma RunThree(w: World, a: Step, b: Step, c: Step)
    ensures Run(w, [a, b, c]) == TryStep(TryStep(TryStep(w, a), b), c)
  {
    assert [a, b, c][..2] == [a, b];
    assert [a, b][..1] == [a];
    assert [a][..0] == [];
    assert Run(w, [a]) == TryStep(w, a);
    assert Run(w, [a, b]) == TryStep(TryStep(w, a), b);
  }
}
