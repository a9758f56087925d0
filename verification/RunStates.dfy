/** The run-state machine and the two walkers that move a run along it. */
module RunStates {
  import opened Wrappers
  import opened BreadthFirst

  datatype RunState =
    | Created | Queued | Initializing | Planning | Executing | Observing | Verifying | Recovering
    | Waiting | Paused | Completed | Failed | Cancelled | TimedOut

  datatype Trigger =
    | Queue | Initialize | Plan | Act | Observe | Verify | Recover | AwaitApproval | Pause | Resume
    | Complete | Fail | Cancel | Timeout | Retry

  const TRIGGERS: seq<Trigger> :=
    [Queue, Initialize, Plan, Act, Observe, Verify, Recover, AwaitApproval, Pause, Resume,
     Complete, Fail, Cancel, Timeout, Retry]

  predicate IsTerminal(s: RunState) {
    s.Completed? || s.Failed? || s.Cancelled? || s.TimedOut?
  }

  function AllowedTargets(from: RunState): seq<RunState> {
    match from
    case Created => [Queued, Initializing, Cancelled, Failed]
    case Queued => [Initializing, Executing, Planning, Paused, Cancelled, Failed, TimedOut]
    case Initializing => [Planning, Executing, Waiting, Failed, Cancelled, TimedOut]
    case Planning => [Executing, Observing, Waiting, Recovering, Completed, Failed, Cancelled, TimedOut]
    case Executing =>
      [Observing, Planning, Verifying, Recovering, Waiting, Paused, Completed, Failed, Cancelled, TimedOut]
    case Observing =>
      [Executing, Planning, Verifying, Recovering, Waiting, Paused, Failed, Cancelled, TimedOut, Completed]
    case Verifying => [Executing, Planning, Recovering, Waiting, Completed, Failed, Cancelled, TimedOut]
    case Recovering => [Executing, Planning, Waiting, Paused, Failed, Cancelled, TimedOut]
    case Waiting => [Executing, Planning, Recovering, Paused, Failed, Cancelled, TimedOut]
    case Paused => [Queued, Cancelled, Failed, TimedOut]
    case Completed => []
    case Failed => [Queued]
    case Cancelled => []
    case TimedOut => [Queued]
  }

  function TriggerTargets(t: Trigger): seq<RunState> {
    match t
    case Queue => [Queued]
    case Initialize => [Initializing]
    case Plan => [Planning]
    case Act => [Executing]
    case Observe => [Observing]
    case Verify => [Verifying]
    case Recover => [Recovering]
    case AwaitApproval => [Waiting]
    case Pause => [Paused]
    case Resume => [Executing, Planning, Queued]
    case Complete => [Completed]
    case Fail => [Failed]
    case Cancel => [Cancelled]
    case Timeout => [TimedOut]
    case Retry => [Queued]
  }

  ghost predicate IsFirstAmong(candidates: seq<RunState>, targets: seq<RunState>, r: Option<RunState>) {
    match r
    case None => forall i | 0 <= i < |candidates| :: candidates[i] !in targets
    case Some(s) =>
      s in targets
      && exists i | 0 <= i < |candidates| ::
           candidates[i] == s && forall k | 0 <= k < i :: candidates[k] !in targets
  }

  /** The first candidate that is among the legal targets. */
  function FirstAmong(candidates: seq<RunState>, targets: seq<RunState>): (r: Option<RunState>)
    ensures r.Some? ==> r.value in candidates && r.value in targets
    ensures IsFirstAmong(candidates, targets, r)
  {
    if candidates == [] then None
    else if candidates[0] in targets then Some(candidates[0])
    else FirstAmong(candidates[1..], targets)
  }

  function NextStateFor(from: RunState, trigger: Trigger): Option<RunState> {
    FirstAmong(TriggerTargets(trigger), AllowedTargets(from))
  }

  function FirstTrigger(from: RunState, to: RunState, triggers: seq<Trigger>): (r: Option<Trigger>)
    ensures r.Some? ==> NextStateFor(from, r.value) == Some(to)
    ensures r.None? ==> forall i | 0 <= i < |triggers| :: NextStateFor(from, triggers[i]) != Some(to)
  {
    if triggers == [] then None
    else if NextStateFor(from, triggers[0]) == Some(to) then Some(triggers[0])
    else FirstTrigger(from, to, triggers[1..])
  }

  function TriggerFor(from: RunState, to: RunState): Option<Trigger> {
    FirstTrigger(from, to, TRIGGERS)
  }

  /** Where in the trigger list the trigger named after a state stands. */
  function OwnTriggerIndex(to: RunState): nat {
    match to
    case Created => 0
    case Queued => 0
    case Initializing => 1
    case Planning => 2
    case Executing => 3
    case Observing => 4
    case Verifying => 5
    case Recovering => 6
    case Waiting => 7
    case Paused => 8
    case Completed => 10
    case Failed => 11
    case Cancelled => 12
    case TimedOut => 13
  }

  /** The table read by target: what a run must be doing to get there.  Every run that is not terminal can fail and
      be cancelled. */
  predicate LeadsTo(from: RunState, to: RunState) {
    match to
    case Created => false
    case Queued => from.Created? || from.Paused? || from.Failed? || from.TimedOut?
    case Initializing => from.Created? || from.Queued?
    case Planning => !IsTerminal(from) && !from.Created? && !from.Planning? && !from.Paused?
    case Executing => !IsTerminal(from) && !from.Created? && !from.Executing? && !from.Paused?
    case Observing => from.Planning? || from.Executing?
    case Verifying => from.Executing? || from.Observing?
    case Recovering => from.Planning? || from.Executing? || from.Observing? || from.Verifying? || from.Waiting?
    case Waiting =>
      !IsTerminal(from) && !from.Created? && !from.Queued? && !from.Waiting? && !from.Paused?
    case Paused => from.Queued? || from.Executing? || from.Observing? || from.Recovering? || from.Waiting?
    case Completed => from.Planning? || from.Executing? || from.Observing? || from.Verifying?
    case Failed => !IsTerminal(from)
    case Cancelled => !IsTerminal(from)
    case TimedOut => !IsTerminal(from) && !from.Created?
  }

  lemma TargetsWhenIdle(from: RunState, to: RunState)
    requires from.Created? || from.Queued? || from.Initializing? || from.Paused? || IsTerminal(from)
    ensures to in AllowedTargets(from) <==> LeadsTo(from, to)
  {
  }

  lemma TargetsWhenDeciding(from: RunState, to: RunState)
    requires from.Planning? || from.Verifying?
    ensures to in AllowedTargets(from) <==> LeadsTo(from, to)
  {
  }

  lemma TargetsWhenActing(from: RunState, to: RunState)
    requires from.Executing?
    ensures to in AllowedTargets(from) <==> LeadsTo(from, to)
  {
  }

  lemma TargetsWhenLooking(from: RunState, to: RunState)
    requires from.Observing?
    ensures to in AllowedTargets(from) <==> LeadsTo(from, to)
  {
  }

  lemma TargetsWhenHeld(from: RunState, to: RunState)
    requires from.Recovering? || from.Waiting?
    ensures to in AllowedTargets(from) <==> LeadsTo(from, to)
  {
  }

  lemma TableByTarget(from: RunState, to: RunState)
    ensures to in AllowedTargets(from) <==> LeadsTo(from, to)
  {
    match from
    case Planning | Verifying => TargetsWhenDeciding(from, to);
    case Executing => TargetsWhenActing(from, to);
    case Observing => TargetsWhenLooking(from, to);
    case Recovering | Waiting => TargetsWhenHeld(from, to);
    case _ => TargetsWhenIdle(from, to);
  }

  lemma CreatedIsNeverATarget(from: RunState)
    ensures Created !in AllowedTargets(from)
  {
  }

  lemma OwnTrigger(to: RunState)
    requires !to.Created?
    ensures TriggerTargets(TRIGGERS[OwnTriggerIndex(to)]) == [to]
  {
  }

  /** An edge is in the transition table exactly when some trigger takes it. */
  lemma EdgeIffTrigger(from: RunState, to: RunState)
    ensures to in AllowedTargets(from) <==> TriggerFor(from, to).Some?
  {
    if to in AllowedTargets(from) {
      CreatedIsNeverATarget(from);
      OwnTrigger(to);
      assert NextStateFor(from, TRIGGERS[OwnTriggerIndex(to)]) == Some(to);
    }
  }

  /** The run-state table as a finite map, which is what the breadth-first search is defined over. */
  function RunTable(): (t: Table<RunState>)
    ensures Closed(t) && forall s: RunState :: s in t && t[s] == AllowedTargets(s)
  {
    map s: RunState | true :: AllowedTargets(s)
  }

  function PathOf(found: Option<seq<Hop<RunState>>>): seq<Hop<RunState>> {
    if found.Some? then found.value else []
  }

  ghost predicate TriggersKnown(table: Table<RunState>) {
    forall s, i | s in table && 0 <= i < |table[s]| :: TriggerFor(s, table[s][i]).Some?
  }

  lemma RunTableTriggersKnown()
    ensures TriggersKnown(RunTable())
  {
    forall s, i | s in RunTable() && 0 <= i < |RunTable()[s]| ensures TriggerFor(s, RunTable()[s][i]).Some? {
      EdgeIffTrigger(s, RunTable()[s][i]);
    }
  }

  /** One iteration of the loop in `findPath`: an edge is followed only when a trigger exists for it. */
  method ExpandWithTriggers(
      table: Table<RunState>, current: Item<RunState>, queue0: seq<Item<RunState>>, seen0: set<RunState>, to: RunState)
    returns (found: Option<seq<Hop<RunState>>>, queue: seq<Item<RunState>>, seen: set<RunState>)
    requires Closed(table) && TriggersKnown(table) && current.state in table && seen0 <= table.Keys
    ensures Expand(table, current, 0, queue0, seen0, to)
            == if found.Some? then Found(found.value) else Continue(queue, seen)
  {
    queue, seen := queue0, seen0;
    var targets := table[current.state];
    for j := 0 to |targets|
      invariant seen <= table.Keys
      invariant Expand(table, current, 0, queue0, seen0, to) == Expand(table, current, j, queue, seen, to)
    {
      var next := targets[j];
      if next in seen { continue; }
      if TriggerFor(current.state, next).None? { continue; }
      var path := current.path + [Hop(current.state, next)];
      if next == to { return Some(path), queue, seen; }
      seen := seen + {next};
      queue := queue + [Item(next, path)];
    }
    found := None;
  }

  /** `findPath` of the run session, over any table whose edges all have triggers. */
  method FindPath(table: Table<RunState>, from: RunState, to: RunState) returns (path: seq<Hop<RunState>>)
    requires Closed(table) && TriggersKnown(table) && from in table
    ensures path == PathOf(Find(table, from, to))
    ensures path != [] ==> IsShortest(table, from, path, to)
    ensures path == [] <==> from == to || !Reachable(table, from, to)
    ensures path != [] ==> Find(table, from, to).Some? && path[|path| - 1].to == to
    ensures path == [] ==> Find(table, from, to).None?
  {
    FoundPathIsShortest(table, from, to);
    if from == to { return []; }
    path := SearchWithTriggers(table, from, to);
  }

  lemma FoundPathIsShortest(table: Table<RunState>, from: RunState, to: RunState)
    requires Closed(table) && from in table
    ensures var path := PathOf(Find(table, from, to));
            && (path != [] ==>
                  && IsShortest(table, from, path, to) && Find(table, from, to).Some? && path[|path| - 1].to == to)
            && (path == [] <==> from == to || !Reachable(table, from, to))
            && (path == [] ==> Find(table, from, to).None?)
  {
    FindIsShortest(table, from, to);
  }

  method SearchWithTriggers(table: Table<RunState>, from: RunState, to: RunState) returns (path: seq<Hop<RunState>>)
    requires Closed(table) && TriggersKnown(table) && from in table && from != to
    ensures path == PathOf(Find(table, from, to))
  {
    var queue := [Item(from, [])];
    var seen := {from};
    while queue != []
      invariant seen <= table.Keys && QueueInTable(table, queue)
      invariant Find(table, from, to) == Search(table, queue, seen, to)
      decreases |table.Keys - seen|, |queue|
    {
      var current, rest := queue[0], queue[1..];
      SearchStep(table, queue, seen, to);
      var found, queue', seen' := ExpandWithTriggers(table, current, rest, seen, to);
      if found.Some? { return found.value; }
      queue, seen := queue', seen';
    }
    return [];
  }

  /** One iteration of the loop inside `advanceRunTo`: no trigger filter, and a flag stops the search. */
  method ExpandForAdvance(
      table: Table<RunState>, current: Item<RunState>, queue0: seq<Item<RunState>>, seen0: set<RunState>, to: RunState)
    returns (path: Option<seq<Hop<RunState>>>, queue: seq<Item<RunState>>, seen: set<RunState>)
    requires Closed(table) && current.state in table && seen0 <= table.Keys
    ensures Expand(table, current, 0, queue0, seen0, to)
            == if path.Some? then Found(path.value) else Continue(queue, seen)
  {
    path, queue, seen := None, queue0, seen0;
    var targets := table[current.state];
    for j := 0 to |targets|
      invariant path.None? && seen <= table.Keys
      invariant Expand(table, current, 0, queue0, seen0, to) == Expand(table, current, j, queue, seen, to)
    {
      var next := targets[j];
      if next in seen { continue; }
      var candidate := current.path + [Hop(current.state, next)];
      if next == to {
        path := Some(candidate);
        break;
      }
      seen := seen + {next};
      queue := queue + [Item(next, candidate)];
    }
  }

  /** The search inside `advanceRunTo`; it finds exactly the path `findPath` finds. */
  method SearchForAdvance(table: Table<RunState>, from: RunState, to: RunState)
    returns (path: Option<seq<Hop<RunState>>>)
    requires Closed(table) && from in table && from != to
    ensures path == Find(table, from, to)
    ensures path.Some? ==> path.value != [] && path.value[|path.value| - 1].to == to
  {
    FoundPathEnds(table, from, to);
    var queue := [Item(from, [])];
    var seen := {from};
    path := None;
    while queue != []
      invariant path.None? && seen <= table.Keys && QueueInTable(table, queue)
      invariant Find(table, from, to) == Search(table, queue, seen, to)
      decreases |table.Keys - seen|, |queue|
    {
      var current, rest := queue[0], queue[1..];
      SearchStep(table, queue, seen, to);
      var found, queue', seen' := ExpandForAdvance(table, current, rest, seen, to);
      if found.Some? {
        path := found;
        break;
      }
      queue, seen := queue', seen';
    }
  }

  /** No chain of legal hops leaves a completed or cancelled run, so neither walker moves one. */
  lemma FinishedRunsStay(from: RunState, to: RunState)
    requires from.Completed? || from.Cancelled?
    ensures Find(RunTable(), from, to).None?
    ensures Reachable(RunTable(), from, to) <==> from == to
  {
    DeadEnd(RunTable(), from, to);
  }

  /** The states a run passes through under a series of requested targets. */
  function AdvanceAll(from: RunState, targets: seq<RunState>): RunState
    decreases |targets|
  {
    if targets == [] then from
    else AdvanceAll(if Find(RunTable(), from, targets[0]).Some? then targets[0] else from, targets[1..])
  }

  /** Whatever targets are requested, in whatever order, a run never leaves COMPLETED or CANCELLED,
      and every state it reaches is joined to the first by legal hops. */
  lemma {:induction false} AdvancesAreLegal(from: RunState, targets: seq<RunState>)
    ensures Reachable(RunTable(), from, AdvanceAll(from, targets))
    ensures from.Completed? || from.Cancelled? ==> AdvanceAll(from, targets) == from
    decreases |targets|
  {
    if targets == [] {
      assert IsPath(RunTable(), from, [], from);
    } else {
      var mid := if Find(RunTable(), from, targets[0]).Some? then targets[0] else from;
      AdvancesAreLegal(mid, targets[1..]);
      FindIsShortest(RunTable(), from, targets[0]);
      if mid != from {
        if from.Completed? || from.Cancelled? { FinishedRunsStay(from, mid); }
        ReachableJoins(RunTable(), from, mid, AdvanceAll(from, targets));
      }
    }
  }

  lemma ReachableJoins<S(!new)>(table: Table<S>, from: S, mid: S, to: S)
    requires Reachable(table, from, mid) && Reachable(table, mid, to)
    ensures Reachable(table, from, to)
  {
    var p :| IsPath(table, from, p, mid);
    var q :| IsPath(table, mid, q, to);
    assert IsPath(table, from, p + q, to);
  }

  datatype TransitionRecord = TransitionRecord(from: RunState, to: RunState, trigger: Trigger, at: int)

  datatype TransitionError = InvalidTransition(from: RunState, trigger: Trigger)

  predicate IsLegal(r: TransitionRecord) {
    NextStateFor(r.from, r.trigger) == Some(r.to) && !IsTerminal(r.from)
  }

  /** The records are legal transitions that join `start` to `state`, one after the other. */
  predicate Leads(records: seq<TransitionRecord>, start: RunState, state: RunState) {
    if records == [] then state == start
    else
      var last := records[|records| - 1];
      last.to == state && IsLegal(last) && Leads(records[..|records| - 1], start, last.from)
  }

  /** `RunStateMachine`: a state, a version bumped by every accepted transition, and the history. */
  class RunStateMachine {
    const start: RunState
    var state: RunState
    var version: nat
    var history: seq<TransitionRecord>

    ghost predicate Linked()
      reads this
    {
      Leads(history, start, state)
    }

    constructor (state: RunState, version: nat)
      ensures this.state == state && this.start == state && this.version == version && history == [] && Linked()
    {
      this.start, this.state, this.version, history := state, state, version, [];
    }

    method Apply(trigger: Trigger, now: int) returns (r: Result<TransitionRecord, TransitionError>)
      requires Linked()
      modifies this
      ensures Linked()
      ensures r.Ok? <==> !IsTerminal(old(state)) && NextStateFor(old(state), trigger).Some?
      ensures r.Ok? ==> r.value == TransitionRecord(old(state), state, trigger, now)
      ensures r.Ok? ==> version == old(version) + 1 && history == old(history) + [r.value]
      ensures r.Ok? ==> Some(state) == NextStateFor(old(state), trigger)
      ensures r.Ok? ==> IsFirstAmong(TriggerTargets(trigger), AllowedTargets(old(state)), Some(state))
      ensures r.Err? ==> r.error == InvalidTransition(old(state), trigger)
      ensures r.Err? ==>
                || old(state) in {Completed, Failed, Cancelled, TimedOut}
                || forall to | to in TriggerTargets(trigger) :: to !in AllowedTargets(old(state))
      ensures r.Err? ==> state == old(state) && version == old(version) && history == old(history)
    {
      if IsTerminal(state) { return Err(InvalidTransition(state, trigger)); }
      var to := NextStateFor(state, trigger);
      if to.None? { return Err(InvalidTransition(state, trigger)); }
      var record := TransitionRecord(state, to.value, trigger, now);
      state := to.value;
      version := version + 1;
      assert (history + [record])[..|history|] == history;
      history := history + [record];
      return Ok(record);
    }

    /** A caller whose expected version is stale changes nothing. */
    method ApplyIfVersion(expected: nat, trigger: Trigger, now: int)
      returns (r: Option<Result<TransitionRecord, TransitionError>>)
      requires Linked()
      modifies this
      ensures Linked()
      ensures r.Some? <==> expected == old(version)
      ensures r.Some? && r.value.Ok? ==>
                version == old(version) + 1 && history == old(history) + [r.value.value]
                && Some(state) == NextStateFor(old(state), trigger) && !IsTerminal(old(state))
      ensures r.None? || r.value.Err? ==> state == old(state) && version == old(version) && history == old(history)
    {
      if expected != version { return None; }
      var applied := Apply(trigger, now);
      return Some(applied);
    }
  }
}
