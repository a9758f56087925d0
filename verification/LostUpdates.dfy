/** Which status changes are lost, and exactly when. */
module LostUpdates {
  // `advanceTo` writes the run row without bumping its version, so a queue operation or a start that read the row
  // before passes its version check and writes the old status back.

  import opened Wrappers
  import BF = BreadthFirst
  import opened RunStates
  import opened RunClaims
  import opened RunOwnership
  import opened SessionCourse
  import ClaimSafety

  /** The target of the last `advanceTo` of the run whose write was accepted. */
  function LastAdvance(w: World, steps: seq<Step>): Option<RunState>
    decreases |steps|
  {
    if steps == [] then None
    else
      var shorter, step := steps[..|steps| - 1], steps[|steps| - 1];
      if AdvanceAccepted(Run(w, shorter), step) then Some(step.to) else LastAdvance(w, shorter)
  }

  lemma VersionGrows(w: World, step: Step)
    ensures TryStep(w, step).row.version >= w.row.version
    ensures TryStep(w, step).row.version == w.row.version && !AdvanceAccepted(w, step) ==> TryStep(w, step).row == w.row
  {
  }

  /** While the version stands still, the row's status is what the last accepted `advanceTo` wrote. */
  lemma {:induction false} StatusAtVersion(w: World, steps: seq<Step>)
    ensures Run(w, steps).row.version >= w.row.version
    ensures Run(w, steps).row.version == w.row.version ==>
              match LastAdvance(w, steps)
              case None => Run(w, steps).row == w.row
              case Some(to) => Run(w, steps).row.status == to
    decreases |steps|
  {
    if steps != [] {
      var shorter, step := steps[..|steps| - 1], steps[|steps| - 1];
      StatusAtVersion(w, shorter);
      assert Run(w, steps) == TryStep(Run(w, shorter), step);
      VersionGrows(Run(w, shorter), step);
    }
  }

  /** Operation `id` still holds the row it read at `w`, and the version has not moved since. */
  predicate StillHolds(w: World, w': World, id: Id) {
    w'.row.version == w.row.version && id in w'.actors && w'.actors[id] == Reading(w.row)
  }

  /** A write that passes the version check overwrites a row its author never saw exactly when a session has advanced
      the run to another status since; the claim, as long as no session had a write rejected, is never the
      difference. */
  lemma OverwritesUnseenIffAdvanced(w: World, steps: seq<Step>, id: Id)
    requires StillHolds(w, Run(w, steps), id) && Reached(Run(w, steps)) && !Run(w, steps).rejected
    ensures Run(w, steps).row.claim == w.row.claim
    ensures Run(w, steps).row != w.row
            <==> LastAdvance(w, steps).Some? && LastAdvance(w, steps).value != w.row.status
  {
    StatusAtVersion(w, steps);
    ClaimSafety.VersionCheckSeesRow(Run(w, steps), id);
  }

  /** A version-checked write of reader `id` that leaves a run unfinished. */
  predicate WritesUnfinished(step: Step, id: Id) {
    match step
    case Enqueue(i, _) => i == id
    case Claim(i, _, _) => i == id
    case Release(i, _, _) => i == id
    case Reclaim(i, _, _) => i == id
    case StartWrite(i) => i == id
    case AdvanceRow(i, to) => i == id && !IsTerminal(to)
    case _ => false
  }

  /** The write is accepted and a terminal status is gone. */
  predicate Undoes(w: World, step: Step) {
    && IsTerminal(w.row.status) && Enabled(w, step)
    && Apply(w, step).row.version == w.row.version + 1 && !IsTerminal(Apply(w, step).row.status)
  }

  /** The exact condition for one write: whatever happened since the row was read, a write that passes the version
      check undoes a terminal status if and only if the last accepted `advanceTo` since was to a terminal one. */
  lemma UndoneIffAdvancedSinceRead(w: World, steps: seq<Step>, id: Id, step: Step)
    requires !IsTerminal(w.row.status) && StillHolds(w, Run(w, steps), id)
    requires WritesUnfinished(step, id) && Enabled(Run(w, steps), step)
    ensures Undoes(Run(w, steps), step)
            <==> LastAdvance(w, steps).Some? && IsTerminal(LastAdvance(w, steps).value)
  {
    StatusAtVersion(w, steps);
  }

  // ------------------------------------------------------------------ when a terminal status can be lost

  predicate MidPersist(w: World, j: Id) {
    IsLive(w, j) && !w.actors[j].session.phase.Idle?
  }

  /** Session `j` may yet advance the run at its present version.  It holds that version and no containment of it is
      past its advance; or it is one version behind and may persist before it advances, which is refused, takes it to
      that version, and is contained by an advance. */
  predicate MayUndo(t: Tracked, j: Id) {
    var w := t.world;
    && j in w.actors && !w.actors[j].Reading? && !IsFinal(HeldRow(w.actors[j]).status)
    && (if HeldRow(w.actors[j]).version == w.row.version then
          w.actors[j].Starting? || CourseOf(t, j).Working? || (CourseOf(t, j).Containing? && !MidPersist(w, j))
        else
          && HeldRow(w.actors[j]).version + 1 == w.row.version
          && w.actors[j].Live? && CourseOf(t, j).Working? && CourseOf(t, j).persists > 0
          && (MidPersist(w, j) ==> !Rests(HeldRow(w.actors[j]).status)))
  }

  /** Between two writes of a persist whose state write must first turn out differently: it would be accepted and end
      the session, or be refused and put it into containment one version behind. */
  predicate NeedsOtherState(w: World, j: Id) {
    && MidPersist(w, j)
    && var s := w.actors[j].session;
       if s.row.version == w.row.version then Rests(s.row.status) && s.phase.expected == w.stateVersion
       else s.phase.expected != w.stateVersion
  }

  predicate CanUndo(t: Tracked, j: Id) {
    MayUndo(t, j) && !NeedsOtherState(t.world, j)
  }

  ghost predicate NobodyMay(t: Tracked) {
    forall j :: !MayUndo(t, j)
  }

  lemma FinalStays(from: RunState, to: RunState)
    requires IsFinal(from)
    ensures !CanAdvance(from, to)
  {
    FinishedRunsStay(from, to);
  }

  lemma NoAdvanceWithoutMay(t: Tracked, step: Step)
    requires NobodyMay(t) && CanMove(t, Does(step))
    ensures !AdvanceAccepted(t.world, step)
  {
    if step.AdvanceSession? {
      assert !MayUndo(t, step.id);
      if IsFinal(t.world.actors[step.id].session.row.status) {
        FinalStays(t.world.actors[step.id].session.row.status, step.to);
      }
    }
  }

  predicate StepAbout(step: Step, j: Id) {
    !step.SaveStoredState? && !step.RestoreState? && step.id == j
  }

  predicate About(m: Move, j: Id) {
    match m
    case Does(step) => StepAbout(step, j)
    case MovesOn(id) => id == j
    case Throws(id) => id == j
  }

  predicate SameActor(w: World, w': World, j: Id) {
    && (j in w'.actors <==> j in w.actors)
    && (j in w.actors ==> w'.actors[j] == w.actors[j])
  }

  lemma OthersKeepActor(w: World, step: Step, j: Id)
    requires Enabled(w, step) && !StepAbout(step, j)
    ensures SameActor(w, Apply(w, step), j)
  {
  }

  lemma OthersKeepCourse(t: Tracked, step: Step, j: Id)
    requires Enabled(t.world, step) && !StepAbout(step, j)
    ensures var course := CourseAfter(t, step);
            (j in course <==> j in t.course) && (j in course ==> course[j] == t.course[j])
  {
  }

  /** A move about another actor leaves `j` as it is. */
  lemma OthersUntouched(t: Tracked, m: Move, j: Id)
    requires !About(m, j)
    ensures SameActor(t.world, Make(t, m).world, j) && CourseOf(Make(t, m), j) == CourseOf(t, j)
  {
    if CanMove(t, m) && m.Does? {
      OthersKeepActor(t.world, m.step, j);
      OthersKeepCourse(t, m.step, j);
    }
  }

  lemma OperationKeepsOut(t: Tracked, step: Step)
    requires CanMove(t, Does(step)) && !step.SaveStoredState? && !step.RestoreState? && IsReading(t.world, step.id)
    requires Apply(t.world, step).row.version == t.world.row.version
    ensures !MayUndo(Make(t, Does(step)), step.id)
  {
  }

  lemma AdvanceKeepsOut(t: Tracked, j: Id, to: RunState)
    requires !MayUndo(t, j) && CanMove(t, Does(AdvanceSession(j, to)))
    ensures !MayUndo(Make(t, Does(AdvanceSession(j, to))), j)
  {
    var from := t.world.actors[j].session.row.status;
    if IsFinal(from) { FinalStays(from, to); }
  }

  lemma PersistKeepsOut(t: Tracked, step: Step)
    requires step.PersistRow? || step.PersistCounters? || step.PersistState?
    requires CanMove(t, Does(step)) && !MayUndo(t, step.id) && Apply(t.world, step).row.version == t.world.row.version
    ensures !MayUndo(Make(t, Does(step)), step.id)
  {
  }

  lemma OwnMoveKeepsOut(t: Tracked, m: Move, j: Id)
    requires !MayUndo(t, j) && About(m, j) && Make(t, m).world.row.version == t.world.row.version
    ensures !MayUndo(Make(t, m), j)
  {
    if CanMove(t, m) && m.Does? {
      if IsReading(t.world, j) {
        OperationKeepsOut(t, m.step);
      } else if m.step.AdvanceSession? {
        AdvanceKeepsOut(t, j, m.step.to);
      } else if m.step.PersistRow? || m.step.PersistCounters? || m.step.PersistState? {
        PersistKeepsOut(t, m.step);
      }
    }
  }

  /** No move makes a session that may undo anything out of none, unless it moves the version. */
  lemma MoveKeepsNobody(t: Tracked, m: Move)
    requires NobodyMay(t) && Make(t, m).world.row.version == t.world.row.version
    ensures NobodyMay(Make(t, m)) && Make(t, m).world.row == t.world.row
  {
    forall j ensures !MayUndo(Make(t, m), j) {
      assert !MayUndo(t, j);
      if About(m, j) { OwnMoveKeepsOut(t, m, j); } else { OthersUntouched(t, m, j); }
    }
    if m.Does? && CanMove(t, m) {
      NoAdvanceWithoutMay(t, m.step);
      VersionGrows(t.world, m.step);
    }
  }

  lemma MoveGrows(t: Tracked, m: Move)
    ensures Make(t, m).world.row.version >= t.world.row.version
  {
    if m.Does? { VersionGrows(t.world, m.step); }
  }

  lemma {:induction false} MovesKeepNobody(t: Tracked, moves: seq<Move>)
    ensures RunMoves(t, moves).world.row.version >= t.world.row.version
    ensures NobodyMay(t) && RunMoves(t, moves).world.row.version == t.world.row.version ==>
              NobodyMay(RunMoves(t, moves)) && RunMoves(t, moves).world.row == t.world.row
    decreases |moves|
  {
    if moves != [] {
      var shorter, m := moves[..|moves| - 1], moves[|moves| - 1];
      MovesKeepNobody(t, shorter);
      var before := RunMoves(t, shorter);
      MoveGrows(before, m);
      if NobodyMay(t) && RunMoves(t, moves).world.row.version == t.world.row.version { MoveKeepsNobody(before, m); }
    }
  }

  lemma ListedIsPath(from: RunState, to: RunState)
    requires to in AllowedTargets(from)
    ensures BF.IsPath(RunTable(), from, [BF.Hop(from, to)], to)
  {
  }

  lemma OneHop(from: RunState, to: RunState)
    requires to in AllowedTargets(from) && from != to
    ensures CanAdvance(from, to)
  {
    BF.FindIsShortest(RunTable(), from, to);
    ListedIsPath(from, to);
  }

  /** Every run that is not final can be advanced to CANCELLED, a failed one by way of the queue. */
  lemma CancelAdvances(from: RunState)
    requires !IsFinal(from)
    ensures CanAdvance(from, Cancelled)
  {
    if Cancelled in AllowedTargets(from) {
      OneHop(from, Cancelled);
    } else {
      ListedIsPath(from, Queued);
      ListedIsPath(Queued, Cancelled);
      ReachableJoins(RunTable(), from, Queued, Cancelled);
      BF.FindIsShortest(RunTable(), from, Cancelled);
    }
  }

  /** After any advance to a terminal status at the reader's version, the reader's enqueue, and its start unless it
      read a paused run, goes through and undoes it. */
  lemma AnyTerminalAdvanceIsLost(w: World, id: Id, j: Id, to: RunState, action: DispatchAction)
    requires IsReading(w, id) && w.actors[id].row.version == w.row.version && !IsTerminal(w.actors[id].row.status)
    requires AdvanceAccepted(w, AdvanceSession(j, to)) && IsTerminal(to)
    ensures var w' := Apply(w, AdvanceSession(j, to));
            && Undoes(w', Enqueue(id, action))
            && (!w.actors[id].row.status.Paused? ==> Undoes(w', StartWrite(id)))
  {
  }

  /** After `moves`, which neither touched reader `id` nor moved the version, a write of it undoes a terminal status. */
  ghost predicate Loses(t: Tracked, moves: seq<Move>, id: Id) {
    var w := RunMoves(t, moves).world;
    StillHolds(t.world, w, id) && exists step :: WritesUnfinished(step, id) && Undoes(w, step)
  }

  lemma OnlySessionsLose(t: Tracked, moves: seq<Move>, id: Id)
    requires !IsTerminal(t.world.row.status) && NobodyMay(t)
    ensures !Loses(t, moves, id)
  {
    MovesKeepNobody(t, moves);
  }

  /** As `t`, but for session `j`, which is idle and still may undo something. */
  predicate Prepared(t: Tracked, t': Tracked, id: Id, j: Id) {
    t'.world.row == t.world.row && StillHolds(t.world, t'.world, id) && MayUndo(t', j) && IsIdle(t'.world, j)
  }

  lemma LoadPrepares(t: Tracked, id: Id, j: Id)
    requires StillHolds(t.world, t.world, id) && CanUndo(t, j) && t.world.actors[j].Starting?
    ensures Prepared(t, Make(t, Does(StartLoad(j))), id, j)
  {
  }

  lemma StateWritePrepares(t: Tracked, id: Id, j: Id)
    requires StillHolds(t.world, t.world, id) && CanUndo(t, j)
    requires IsLive(t.world, j) && t.world.actors[j].session.phase.CountersWritten?
    ensures Prepared(t, Make(t, Does(PersistState(j))), id, j)
  {
  }

  lemma CountersKeep(t: Tracked, id: Id, j: Id)
    requires StillHolds(t.world, t.world, id) && CanUndo(t, j)
    requires IsLive(t.world, j) && t.world.actors[j].session.phase.RowWritten?
    ensures var t' := Make(t, Does(PersistCounters(j)));
            && t'.world.row == t.world.row && StillHolds(t.world, t'.world, id) && CanUndo(t', j)
            && IsLive(t'.world, j) && t'.world.actors[j].session.phase.CountersWritten?
  {
  }

  /** A starting session loads its state; a session inside a persist ends it. */
  lemma ComesToRest(t: Tracked, id: Id, j: Id) returns (moves: seq<Move>)
    requires StillHolds(t.world, t.world, id) && CanUndo(t, j)
    ensures Prepared(t, RunMoves(t, moves), id, j)
  {
    moves := [];
    if t.world.actors[j].Starting? {
      LoadPrepares(t, id, j);
      MovesSnoc(t, moves, Does(StartLoad(j)));
      moves := moves + [Does(StartLoad(j))];
    } else {
      if t.world.actors[j].session.phase.RowWritten? {
        CountersKeep(t, id, j);
        MovesSnoc(t, moves, Does(PersistCounters(j)));
        moves := moves + [Does(PersistCounters(j))];
      }
      if t.world.actors[j].session.phase != Idle {
        StateWritePrepares(RunMoves(t, moves), id, j);
        MovesSnoc(t, moves, Does(PersistState(j)));
        moves := moves + [Does(PersistState(j))];
      }
    }
  }

  /** An exception, or the one refused persist that a session survives, leads to the containment. */
  lemma IntoContainment(t: Tracked, id: Id, j: Id) returns (m: Move)
    requires StillHolds(t.world, t.world, id) && MayUndo(t, j) && IsIdle(t.world, j)
    ensures Prepared(t, Make(t, m), id, j) && CourseOf(Make(t, m), j).Containing?
    ensures HeldRow(Make(t, m).world.actors[j]).version == t.world.row.version
  {
    m := if HeldRow(t.world.actors[j]).version == t.world.row.version then Throws(j) else Does(PersistRow(j));
  }

  lemma ContainmentLoses(t: Tracked, moves: seq<Move>, id: Id, j: Id)
    requires !IsTerminal(t.world.row.status) && Prepared(t, RunMoves(t, moves), id, j)
    requires var v := RunMoves(t, moves);
             CourseOf(v, j).Containing? && HeldRow(v.world.actors[j]).version == t.world.row.version
    ensures Loses(t, moves + [Does(AdvanceSession(j, Cancelled))], id)
  {
    var v := RunMoves(t, moves);
    CancelAdvances(HeldRow(v.world.actors[j]).status);
    MovesSnoc(t, moves, Does(AdvanceSession(j, Cancelled)));
    AnyTerminalAdvanceIsLost(v.world, id, j, Cancelled, DispatchResume);
    var w := RunMoves(t, moves + [Does(AdvanceSession(j, Cancelled))]).world;
    assert StillHolds(t.world, w, id);
    assert WritesUnfinished(Enqueue(id, DispatchResume), id) && Undoes(w, Enqueue(id, DispatchResume));
  }

  lemma SessionLoses(t: Tracked, id: Id, j: Id) returns (moves: seq<Move>)
    requires StillHolds(t.world, t.world, id) && !IsTerminal(t.world.row.status) && CanUndo(t, j)
    ensures Loses(t, moves, id)
  {
    moves := ComesToRest(t, id, j);
    var rest := RunMoves(t, moves);
    var m := IntoContainment(rest, id, j);
    MovesSnoc(t, moves, m);
    moves := moves + [m];
    ContainmentLoses(t, moves, id, j);
    moves := moves + [Does(AdvanceSession(j, Cancelled))];
  }

  /** When a write of a reader can undo a terminal status, judged at the moment of reading: only if some session may yet
      advance the run at its present version, and surely if that does not hang on the state row changing first.  Where
      no session hangs on that, the condition is exact. */
  lemma LosableIffSessionNear(t: Tracked, id: Id)
    requires StillHolds(t.world, t.world, id) && !IsTerminal(t.world.row.status)
    ensures (exists moves :: Loses(t, moves, id)) ==> (exists j :: MayUndo(t, j))
    ensures (exists j :: CanUndo(t, j)) ==> (exists moves :: Loses(t, moves, id))
    ensures (forall j :: MayUndo(t, j) ==> !NeedsOtherState(t.world, j)) ==>
              ((exists moves :: Loses(t, moves, id)) <==> (exists j :: MayUndo(t, j)))
  {
    if j :| CanUndo(t, j) {
      var moves := SessionLoses(t, id, j);
    }
    if moves :| Loses(t, moves, id) {
      if NobodyMay(t) { OnlySessionsLose(t, moves, id); }
      var j :| MayUndo(t, j);
    }
    if (forall j :: MayUndo(t, j) ==> !NeedsOtherState(t.world, j)) && exists j :: MayUndo(t, j) {
      var j :| MayUndo(t, j);
      assert CanUndo(t, j);
    }
  }

  // ------------------------------------------------------------------ histories in which it happens

  /** The session of a run just started. */
  function JustStarted(status: RunState): Session {
    Session(Row(2, status, None), 1, Idle, 2, 0, false)
  }

  function OneSession(status: RunState, persists: nat): Tracked {
    Tracked(World(Row(2, status, None), 1, [Write(1, Started, None)], map[1 := Live(JustStarted(status))], {}, false),
            map[1 := Working(persists)])
  }

  lemma FirstStart() returns (moves: seq<Move>)
    ensures RunMoves(CREATED, moves) == OneSession(Initializing, 0)
  {
    moves := [];
    MovesSnoc(CREATED, moves, Does(Read(1)));
    moves := moves + [Does(Read(1))];
    MovesSnoc(CREATED, moves, Does(StartWrite(1)));
    moves := moves + [Does(StartWrite(1))];
    MovesSnoc(CREATED, moves, Does(StartLoad(1)));
    moves := moves + [Does(StartLoad(1))];
    assert RunMoves(CREATED, moves).world.actors == OneSession(Initializing, 0).world.actors;
  }

  lemma WorkingAdvances(t: Tracked, j: Id, to: RunState)
    requires IsIdle(t.world, j) && t.world.actors[j].session.row.version == t.world.row.version
    requires CourseOf(t, j).Working? && LoopTarget(to) && CanAdvance(t.world.actors[j].session.row.status, to)
    ensures AdvanceAccepted(t.world, AdvanceSession(j, to))
    ensures var s := t.world.actors[j].session;
            var local := s.row.(status := to);
            Make(t, Does(AdvanceSession(j, to)))
            == Tracked(t.world.(row := local, actors := t.world.actors[j := Live(s.(row := local))]),
                       t.course[j := Working(PersistsAfter(s.row.status, to))])
  {
  }

  lemma OneSessionAdvances(from: RunState, persists: nat, to: RunState)
    requires CanAdvance(from, to) && LoopTarget(to)
    ensures Make(OneSession(from, persists), Does(AdvanceSession(1, to))) == OneSession(to, PersistsAfter(from, to))
  {
    var t := OneSession(from, persists);
    WorkingAdvances(t, 1, to);
    assert t.world.actors[1 := Live(JustStarted(to))] == OneSession(to, 0).world.actors;
    assert t.course[1 := Working(PersistsAfter(from, to))] == OneSession(to, PersistsAfter(from, to)).course;
  }

  function WithReader(t: Tracked): Tracked {
    t.(world := t.world.(actors := t.world.actors[2 := Reading(t.world.row)]))
  }

  lemma ReaderArrives(from: RunState)
    ensures Make(OneSession(from, 0), Does(Read(2))) == WithReader(OneSession(from, 0))
  {
  }

  lemma ReaderThenAdvance(from: RunState, to: RunState)
    requires CanAdvance(from, to) && IsTerminal(to) && !IsTerminal(from) && !from.Paused?
    ensures var t := Make(WithReader(OneSession(from, 0)), Does(AdvanceSession(1, to)));
            && t.world.row.status == to && !t.world.rejected
            && Undoes(t.world, Enqueue(2, DispatchResume)) && Undoes(t.world, StartWrite(2))
  {
    var t := WithReader(OneSession(from, 0));
    assert t.world.actors[1] == Live(JustStarted(from)) && t.world.actors[2] == Reading(t.world.row);
    WorkingAdvances(t, 1, to);
    ReaderUndoes(t, 2, 1, to);
  }

  lemma ReaderUndoes(t: Tracked, id: Id, j: Id, to: RunState)
    requires IsReading(t.world, id) && t.world.actors[id].row == t.world.row && IsTerminal(to)
    requires !IsTerminal(t.world.row.status) && !t.world.row.status.Paused?
    requires AdvanceAccepted(t.world, AdvanceSession(j, to)) && CanMove(t, Does(AdvanceSession(j, to)))
    ensures var w := Make(t, Does(AdvanceSession(j, to))).world;
            Undoes(w, Enqueue(id, DispatchResume)) && Undoes(w, StartWrite(id))
  {
    AnyTerminalAdvanceIsLost(t.world, id, j, to, DispatchResume);
  }

  /** A terminal status that a session wrote is undone, from the creation of the run on and with no write ever
      rejected. */
  lemma TerminalStatusLost(to: RunState) returns (moves: seq<Move>)
    requires IsTerminal(to) && to in AllowedTargets(Initializing)
    ensures var w := RunMoves(CREATED, moves).world;
            && Reached(w) && !w.rejected && w.row.status == to
            && Undoes(w, Enqueue(2, DispatchResume)) && Undoes(w, StartWrite(2))
  {
    moves := FirstStart();
    OneHop(Initializing, to);
    ReaderArrives(Initializing);
    ReaderThenAdvance(Initializing, to);
    MovesSnoc(CREATED, moves, Does(Read(2)));
    moves := moves + [Does(Read(2))];
    MovesSnoc(CREATED, moves, Does(AdvanceSession(1, to)));
    moves := moves + [Does(AdvanceSession(1, to))];
    MovesAreSteps(CREATED, moves);
  }

  lemma ObservingIsReached()
    ensures CanAdvance(Initializing, Observing)
  {
    ListedIsPath(Initializing, Executing);
    ListedIsPath(Executing, Observing);
    ReachableJoins(RunTable(), Initializing, Executing, Observing);
    BF.FindIsShortest(RunTable(), Initializing, Observing);
  }

  lemma FirstTurn() returns (moves: seq<Move>)
    ensures RunMoves(CREATED, moves) == OneSession(Executing, 2)
  {
    moves := FirstStart();
    ObservingIsReached();
    OneSessionAdvances(Initializing, 0, Observing);
    MovesSnoc(CREATED, moves, Does(AdvanceSession(1, Observing)));
    moves := moves + [Does(AdvanceSession(1, Observing))];
    OneHop(Observing, Executing);
    OneSessionAdvances(Observing, 0, Executing);
    MovesSnoc(CREATED, moves, Does(AdvanceSession(1, Executing)));
    moves := moves + [Does(AdvanceSession(1, Executing))];
  }

  const SECOND := Session(Row(3, Initializing, None), 1, Idle, 3, 0, false)

  /** Session 2 has taken the run over from session 1. */
  function TwoSessions(row: Row, log: seq<Write>, first: Session, course: Course, rejected: bool): Tracked {
    Tracked(World(row, 1, log, map[1 := Live(first), 2 := Live(SECOND)], {}, rejected),
        map[1 := course, 2 := Working(0)])
  }

  const TAKEN_OVER: seq<Write> := [Write(1, Started, None), Write(2, Started, None)]

  /** A second start takes the run over while the first session is at work. */
  lemma SecondStart() returns (moves: seq<Move>)
    ensures RunMoves(CREATED, moves) == TwoSessions(SECOND.row, TAKEN_OVER, JustStarted(Executing), Working(2), false)
  {
    moves := FirstTurn();
    MovesSnoc(CREATED, moves, Does(Read(2)));
    moves := moves + [Does(Read(2))];
    MovesSnoc(CREATED, moves, Does(StartWrite(2)));
    moves := moves + [Does(StartWrite(2))];
    MovesSnoc(CREATED, moves, Does(StartLoad(2)));
    moves := moves + [Does(StartLoad(2))];
    var t := TwoSessions(SECOND.row, TAKEN_OVER, JustStarted(Executing), Working(2), false);
    assert RunMoves(CREATED, moves).world.actors == t.world.actors;
    assert RunMoves(CREATED, moves).course == t.course;
  }

  function Refused(status: RunState): Session {
    Session(Row(3, status, None), 3, Idle, 2, 1, true)
  }

  lemma PersistIsRefused()
    ensures Make(TwoSessions(SECOND.row, TAKEN_OVER, JustStarted(Executing), Working(2), false), Does(PersistRow(1)))
            == TwoSessions(SECOND.row, TAKEN_OVER, Refused(Executing), Containing, true)
  {
    var before := TwoSessions(SECOND.row, TAKEN_OVER, JustStarted(Executing), Working(2), false);
    var after := TwoSessions(SECOND.row, TAKEN_OVER, Refused(Executing), Containing, true);
    assert Make(before, Does(PersistRow(1))).world.actors == after.world.actors;
    assert Make(before, Does(PersistRow(1))).course == after.course;
  }

  lemma ContainmentFailsRun(from: RunState)
    requires CanAdvance(from, Failed)
    ensures Make(TwoSessions(SECOND.row, TAKEN_OVER, Refused(from), Containing, true), Does(AdvanceSession(1, Failed)))
            == TwoSessions(Row(3, Failed, None), TAKEN_OVER, Refused(Failed), Closing, true)
  {
    var before := TwoSessions(SECOND.row, TAKEN_OVER, Refused(from), Containing, true);
    var after := TwoSessions(Row(3, Failed, None), TAKEN_OVER, Refused(Failed), Closing, true);
    assert Make(before, Does(AdvanceSession(1, Failed))).world.actors == after.world.actors;
    assert Make(before, Does(AdvanceSession(1, Failed))).course == after.course;
  }

  /** Session `j` was refused before, and its last persist is the newest write of the run. */
  predicate OverwrittenBy(w: World, j: Id) {
    && |w.log| > 0 && w.log[|w.log| - 1].author == j && w.log[|w.log| - 1].kind.Persisted?
    && IsLive(w, j) && w.actors[j].session.stale
  }

  /** Session 1 was refused before, its last persist is the newest write of the run, and session 2, which was never
      refused, can no longer write. */
  predicate ShutOut(w: World) {
    && w.row.status == Failed && OverwrittenBy(w, 1)
    && IsIdle(w, 2) && Owns(w, 2) && !PersistAccepted(w, 2)
  }

  lemma LastPersistShutsOut()
    ensures ShutOut(Make(TwoSessions(Row(3, Failed, None), TAKEN_OVER, Refused(Failed), Closing, true),
              Does(PersistRow(1))).world)
  {
  }

  /** The promise that a stale session never overwrites newer state fails for sessions that keep to their loop: the one
      that was taken over has its persist refused, fails the run in its containment and shuts out the new owner. */
  lemma StaleContainmentOverwrites() returns (moves: seq<Move>)
    ensures Reached(RunMoves(CREATED, moves).world) && ShutOut(RunMoves(CREATED, moves).world)
  {
    moves := SecondStart();
    PersistIsRefused();
    MovesSnoc(CREATED, moves, Does(PersistRow(1)));
    moves := moves + [Does(PersistRow(1))];
    OneHop(Executing, Failed);
    ContainmentFailsRun(Executing);
    MovesSnoc(CREATED, moves, Does(AdvanceSession(1, Failed)));
    moves := moves + [Does(AdvanceSession(1, Failed))];
    LastPersistShutsOut();
    MovesSnoc(CREATED, moves, Does(PersistRow(1)));
    moves := moves + [Does(PersistRow(1))];
    MovesAreSteps(CREATED, moves);
  }
}
