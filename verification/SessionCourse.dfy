/** In which order a session writes, and when it is over: `RunOwnership` with each session kept to its loop. */
module SessionCourse {
  import opened Wrappers
  import opened RunStates
  import opened RunClaims
  import opened RunOwnership

  /** Where a running session stands.  While `Working(n)` it may persist up to `n` times before its next `advanceTo`.
      An exception leads to the containment, whose `advanceTo` comes first and is skipped only if it has no way to go;
      the persist after it is the last write.  A second exception, and a persist in a resting state, end the session. */
  datatype Course = Working(persists: nat) | Containing | Closing | Over

  datatype Tracked = Tracked(world: World, course: map<Id, Course>)

  const CREATED := Tracked(CREATED_RUN, map[])

  /** A step of the world, a turn the loop takes without another persist, or an exception between two writes. */
  datatype Move = Does(step: Step) | MovesOn(id: Id) | Throws(id: Id)

  function CourseOf(t: Tracked, id: Id): Course {
    if id in t.course then t.course[id] else Over
  }

  /** How often the loop may persist after an advance before it advances again. */
  function PersistsAfter(from: RunState, to: RunState): nat {
    match to
    case Observing => 0
    case Executing => 2
    case Recovering => if from.Verifying? then 1 else 2
    case _ => 1
  }

  /** The states in which the loop leaves a run. */
  predicate Rests(s: RunState) { IsTerminal(s) || s.Waiting? || s.Paused? }

  predicate LoopTarget(s: RunState) {
    !s.Created? && !s.Queued? && !s.Initializing?
  }

  predicate AdvanceAccepted(w: World, step: Step) {
    && step.AdvanceSession? && Enabled(w, step)
    && w.actors[step.id].session.row.version == w.row.version
  }

  predicate StateAccepted(w: World, id: Id)
    requires IsLive(w, id) && w.actors[id].session.phase.CountersWritten?
  {
    w.stateVersion == w.actors[id].session.phase.expected
  }

  /** Containment fails or cancels the run; a model call that failed tries RECOVERING once more, in vain. */
  predicate ContainmentTarget(w: World, step: Step)
    requires step.AdvanceSession?
  {
    step.to.Failed? || step.to.Cancelled? || (step.to.Recovering? && !AdvanceAccepted(w, step))
  }

  predicate OnCourse(t: Tracked, step: Step)
    requires Enabled(t.world, step)
  {
    match step
    case AdvanceSession(id, to) =>
      (match CourseOf(t, id)
       case Working(_) => LoopTarget(to)
       case Containing => ContainmentTarget(t.world, step)
       case _ => false)
    case PersistRow(id) =>
      (match CourseOf(t, id)
       case Working(n) => n > 0
       case Containing =>
         t.world.actors[id].session.row.status.Failed? || IsFinal(t.world.actors[id].session.row.status)
       case Closing => true
       case Over => false)
    case SaveCheckpoint(id) => CourseOf(t, id).Working?
    case _ => true
  }

  /** No hop leaves these states. */
  predicate IsFinal(s: RunState) { s.Completed? || s.Cancelled? }

  predicate CanMove(t: Tracked, m: Move) {
    match m
    case Does(step) => Enabled(t.world, step) && OnCourse(t, step)
    case MovesOn(id) => IsIdle(t.world, id) && CourseOf(t, id).Working?
    case Throws(id) => IsIdle(t.world, id) && CourseOf(t, id).Working?
  }

  function CourseAfter(t: Tracked, step: Step): map<Id, Course>
    requires Enabled(t.world, step)
  {
    match step
    case StartLoad(id) => t.course[id := Working(0)]
    case AdvanceSession(id, to) =>
      var from := t.world.actors[id].session.row.status;
      t.course[id := if !AdvanceAccepted(t.world, step) then Containing
                     else if CourseOf(t, id).Working? then Working(PersistsAfter(from, to)) else Closing]
    case PersistRow(id) =>
      t.course[id := match CourseOf(t, id)
                     case Working(n) =>
                       if PersistAccepted(t.world, id) then Working(if n > 0 then n - 1 else 0) else Containing
                     case _ => if PersistAccepted(t.world, id) then Closing else Over]
    case PersistState(id) =>
      t.course[id := if !CourseOf(t, id).Working? then Over
                     else if !StateAccepted(t.world, id) then Containing
                     else if Rests(t.world.actors[id].session.row.status) then Over else CourseOf(t, id)]
    case _ => t.course
  }

  function Make(t: Tracked, m: Move): Tracked {
    if !CanMove(t, m) then t
    else
      match m
      case Does(step) => Tracked(Apply(t.world, step), CourseAfter(t, step))
      case MovesOn(id) => t.(course := t.course[id := Working(0)])
      case Throws(id) => t.(course := t.course[id := Containing])
  }

  /** Any list of moves; one that is not possible does nothing. */
  function RunMoves(t: Tracked, moves: seq<Move>): Tracked
    decreases |moves|
  {
    if moves == [] then t else Make(RunMoves(t, moves[..|moves| - 1]), moves[|moves| - 1])
  }

  lemma MovesSnoc(t: Tracked, moves: seq<Move>, m: Move)
    ensures RunMoves(t, moves + [m]) == Make(RunMoves(t, moves), m)
  {
    assert (moves + [m])[..|moves + [m]| - 1] == moves;
  }

  /** The steps that a list of moves takes. */
  function StepsOf(t: Tracked, moves: seq<Move>): seq<Step>
    decreases |moves|
  {
    if moves == [] then []
    else
      var shorter, m := moves[..|moves| - 1], moves[|moves| - 1];
      if m.Does? && CanMove(RunMoves(t, shorter), m) then StepsOf(t, shorter) + [m.step] else StepsOf(t, shorter)
  }

  /** Sessions that keep to their course do nothing that `RunOwnership` does not allow, so its results hold of them. */
  lemma {:induction false} MovesAreSteps(t: Tracked, moves: seq<Move>)
    ensures RunMoves(t, moves).world == Run(t.world, StepsOf(t, moves))
    decreases |moves|
  {
    if moves != [] {
      var shorter, m := moves[..|moves| - 1], moves[|moves| - 1];
      MovesAreSteps(t, shorter);
      if m.Does? { RunSnoc(t.world, StepsOf(t, shorter), m.step); }
    }
  }
}
