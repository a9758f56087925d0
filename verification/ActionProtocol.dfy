/** Executing actions against an append-only journal. */
module ActionProtocol {
  // One executor works on a run at a time; inside a batch any number of actions are in flight, every step below is one
  // of their atomic accesses, operators decide approvals meanwhile, and a crash may drop all actions in flight
  // between two steps.

  import opened Wrappers

  datatype Idempotency = Idempotent | RetrySafe | NonIdempotent | Unknown

  /** `approvalRef` is the approval id an action may carry in its metadata. */
  datatype Action = Action(id: string, toolId: string, args: string, key: string, idempotency: Idempotency,
                           approvalRef: Option<nat>)

  datatype EntryStatus = Executing | Succeeded | Failed

  datatype Entry = Entry(key: string, status: EntryStatus, idempotency: Option<Idempotency>)

  datatype ApprovalStatus = Pending | Granted | Denied | Modified | Expired | Cancelled

  datatype Approval = Approval(toolId: string, args: string, status: ApprovalStatus, requestedAt: nat,
                               expiresAt: Option<nat>, modifiedArgs: Option<string>)

  datatype Cause = Intent | ToolResult | Unparsable | Aborted | HookThrew

  datatype Authority = ByPolicy | ByApproval(id: nat)

  /** Everything that happened, in order.  The journal is the `Recorded` events. */
  datatype Event =
    | Recorded(task: nat, entry: Entry, cause: Cause)
    | Allowed(task: nat)
    | Requested(id: nat, toolId: string, args: string)
    | Decided(id: nat, status: ApprovalStatus, modifiedArgs: Option<string>)
    | Resolved(task: nat, id: nat, approval: Approval, at: nat)
    | Invoked(task: nat, action: Action, authority: Authority, args: string)

  datatype OutcomeStatus = OSucceeded | OFailed | ODenied | OAwaitingApproval | OAlreadyCommitted

  datatype Pc =
    | Fresh
    | Passed
    | Seeking
    | Resolving(id: nat)
    | Authorized(authority: Authority, args: string)
    | Intended(authority: Authority, args: string)
    | Running(authority: Authority, args: string)
    | Committed(success: bool)
    | Ended(status: OutcomeStatus, replayed: bool)

  datatype Task = Task(action: Action, pc: Pc)

  datatype World = World(log: seq<Event>, approvals: map<nat, Approval>, clock: nat, tasks: map<nat, Task>,
      nextTask: nat)

  const START := World([], map[], 0, map[], 0)

  predicate ReplaySafe(i: Idempotency) { i.Idempotent? || i.RetrySafe? }

  /** Where the newest journal entry of a key stands. */
  function LastRecord(log: seq<Event>, key: string): (r: Option<nat>)
    ensures r.Some? ==> r.value < |log| && log[r.value].Recorded? && log[r.value].entry.key == key
    ensures forall i | 0 <= i < |log| && log[i].Recorded? && log[i].entry.key == key :: r.Some? && i <= r.value
  {
    if log == [] then None
    else
      var last := |log| - 1;
      if log[last].Recorded? && log[last].entry.key == key then Some(last) else LastRecord(log[..last], key)
  }

  /** `findByKey`: the newest journal entry of a key. */
  function FindByKey(log: seq<Event>, key: string): Option<Entry> {
    var last := LastRecord(log, key);
    if last.Some? then Some(log[last.value].entry) else None
  }

  function Basis(found: Entry, declared: Idempotency): Idempotency {
    if found.idempotency.Some? then found.idempotency.value else declared
  }

  /** The replay guard: a success is never repeated, a failure only when repeating it is safe.  An intent
      left behind by a crash does not block. */
  predicate Passes(found: Option<Entry>, declared: Idempotency) {
    match found
    case None => true
    case Some(e) => e.status.Executing? || (e.status.Failed? && ReplaySafe(Basis(e, declared)))
  }

  /** `recordCommit` takes the idempotency over from the newest entry of the key. */
  function CommitEntry(log: seq<Event>, key: string, status: EntryStatus): Entry {
    var found := FindByKey(log, key);
    Entry(key, status, if found.Some? then found.value.idempotency else None)
  }

  predicate SameFingerprint(a: Action, p: Approval) { a.toolId == p.toolId && a.args == p.args }

  predicate Unexpired(p: Approval, now: nat) { p.expiresAt.None? || p.expiresAt.value > now }

  /** `findForAction`: the newest request for the same fingerprint that was not cancelled. */
  predicate Matches(w: World, a: Action, id: nat) {
    id in w.approvals && SameFingerprint(a, w.approvals[id]) && !w.approvals[id].status.Cancelled?
  }

  predicate IsNewestMatch(w: World, a: Action, id: nat) {
    Matches(w, a, id) && forall j | j in w.approvals && Matches(w, a, j) ::
        w.approvals[j].requestedAt <= w.approvals[id].requestedAt
  }

  datatype Step =
    | BeginBatch(actions: seq<Action>)
    | Lookup(t: nat, toolKnown: bool)
    | PolicyAllows(t: nat)
    | PolicyDenies(t: nat)
    | PolicyAsks(t: nat, channel: bool)
    | FindApproval(t: nat, id: nat)
    | RequestApproval(t: nat, id: nat, ttl: Option<nat>)
    | Resolve(t: nat)
    | Parse(t: nat, ok: bool)
    | Invoke(t: nat, aborted: bool)
    | Finish(t: nat, success: bool, threw: bool)
    | Hook(t: nat, threw: bool)
    | Decide(id: nat, status: ApprovalStatus, modifiedArgs: Option<string>)
    | CancelApproval(id: nat)
    | Tick
    | Crash

  predicate DistinctKeys(actions: seq<Action>) {
    forall i, j | 0 <= i < j < |actions| :: actions[i].key != actions[j].key
  }

  predicate Enabled(w: World, step: Step) {
    match step
    case BeginBatch(actions) => DistinctKeys(actions) && forall t | t in w.tasks :: w.tasks[t].pc.Ended?
    case Lookup(t, _) => t in w.tasks && w.tasks[t].pc.Fresh?
    case PolicyAllows(t) => t in w.tasks && w.tasks[t].pc.Passed?
    case PolicyDenies(t) => t in w.tasks && w.tasks[t].pc.Passed?
    case PolicyAsks(t, _) => t in w.tasks && w.tasks[t].pc.Passed?
    case FindApproval(t, id) =>
      t in w.tasks && w.tasks[t].pc.Seeking?
      && if w.tasks[t].action.approvalRef.Some? then id == w.tasks[t].action.approvalRef.value
         else IsNewestMatch(w, w.tasks[t].action, id)
    case RequestApproval(t, id, _) =>
      t in w.tasks && w.tasks[t].pc.Seeking? && w.tasks[t].action.approvalRef.None? && id !in w.approvals
      && forall j | j in w.approvals :: !Matches(w, w.tasks[t].action, j)
    case Resolve(t) => t in w.tasks && w.tasks[t].pc.Resolving?
    case Parse(t, _) => t in w.tasks && w.tasks[t].pc.Authorized?
    case Invoke(t, _) => t in w.tasks && w.tasks[t].pc.Intended?
    case Finish(t, _, _) => t in w.tasks && w.tasks[t].pc.Running?
    case Hook(t, _) => t in w.tasks && w.tasks[t].pc.Committed?
    case Decide(id, status, _) =>
      id in w.approvals && w.approvals[id].status.Pending? && (status.Granted? || status.Denied? || status.Modified?)
    case CancelApproval(id) => id in w.approvals && w.approvals[id].status.Pending?
    case Tick => true
    case Crash => true
  }

  function Goto(w: World, t: nat, pc: Pc): World
    requires t in w.tasks
  {
    w.(tasks := w.tasks[t := w.tasks[t].(pc := pc)])
  }

  function Log(w: World, e: Event): World { w.(log := w.log + [e]) }

  function Commit(w: World, t: nat, status: EntryStatus, cause: Cause, pc: Pc): World
    requires t in w.tasks
  {
    Goto(Log(w, Recorded(t, CommitEntry(w.log, w.tasks[t].action.key, status), cause)), t, pc)
  }

  function LookupTask(w: World, t: nat, toolKnown: bool): World
    requires t in w.tasks
  {
    var a := w.tasks[t].action;
    var found := FindByKey(w.log, a.key);
    if !toolKnown then Goto(w, t, Ended(OFailed, false))
    else if Passes(found, a.idempotency) then Goto(w, t, Passed)
    else Goto(w, t, Ended(if found.value.status.Succeeded? then OAlreadyCommitted else OFailed, true))
  }

  /** `get` and `resolve` of the approval an action relies on. */
  function ResolveTask(w: World, t: nat): World
    requires t in w.tasks && w.tasks[t].pc.Resolving?
  {
    var a, id := w.tasks[t].action, w.tasks[t].pc.id;
    if id !in w.approvals then Goto(w, t, Ended(ODenied, false))
    else
      var p := w.approvals[id];
      match p.status
      case Pending => Goto(w, t, Ended(OAwaitingApproval, false))
      case Denied | Cancelled | Expired => Goto(w, t, Ended(ODenied, false))
      case Granted | Modified =>
        if !Unexpired(p, w.clock) then
          Goto(w.(approvals := w.approvals[id := p.(status := Expired)]), t, Ended(ODenied, false))
        else if !SameFingerprint(a, p) then Goto(w, t, Ended(ODenied, false))
        else
          var args := if p.modifiedArgs.Some? then p.modifiedArgs.value else a.args;
          Goto(Log(w, Resolved(t, id, p, w.clock)), t, Authorized(ByApproval(id), args))
  }

  function FreshTask(actions: seq<Action>, first: nat, t: nat): Task
    requires first <= t < first + |actions|
  {
    Task(actions[t - first], Fresh)
  }

  function NewTasks(actions: seq<Action>, first: nat): map<nat, Task> {
    map t: nat | first <= t < first + |actions| :: FreshTask(actions, first, t)
  }

  function Apply(w: World, step: Step): World
    requires Enabled(w, step)
  {
    match step
    case BeginBatch(actions) => w.(tasks := NewTasks(actions, w.nextTask), nextTask := w.nextTask + |actions|)
    case Lookup(t, toolKnown) => LookupTask(w, t, toolKnown)
    case PolicyAllows(t) => Goto(Log(w, Allowed(t)), t, Authorized(ByPolicy, w.tasks[t].action.args))
    case PolicyDenies(t) => Goto(w, t, Ended(ODenied, false))
    case PolicyAsks(t, channel) => Goto(w, t, if channel then Seeking else Ended(ODenied, false))
    case FindApproval(t, id) => Goto(w, t, Resolving(id))
    case RequestApproval(t, id, ttl) =>
      var a := w.tasks[t].action;
      var expires := if ttl.Some? then Some(w.clock + ttl.value) else None;
      Goto(Log(w, Requested(id, a.toolId, a.args))
             .(approvals := w.approvals[id := Approval(a.toolId, a.args, Pending, w.clock, expires, None)]),
           t, Ended(OAwaitingApproval, false))
    case Resolve(t) => ResolveTask(w, t)
    case Parse(t, ok) =>
      var a, pc := w.tasks[t].action, w.tasks[t].pc;
      if ok then Goto(Log(w, Recorded(t, Entry(a.key, Executing, Some(a.idempotency)), Intent)), t,
                      Intended(pc.authority, pc.args))
      else Commit(w, t, Failed, Unparsable, Ended(OFailed, false))
    case Invoke(t, aborted) =>
      var a, pc := w.tasks[t].action, w.tasks[t].pc;
      if aborted then Commit(w, t, Failed, Aborted, Ended(OFailed, false))
      else Goto(Log(w, Invoked(t, a, pc.authority, pc.args)), t, Running(pc.authority, pc.args))
    case Finish(t, success, threw) =>
      if threw then Commit(w, t, Failed, ToolResult, Ended(OFailed, false))
      else Commit(w, t, if success then Succeeded else Failed, ToolResult, Committed(success))
    case Hook(t, threw) =>
      if threw then Commit(w, t, Failed, HookThrew, Ended(OFailed, false))
      else Goto(w, t, Ended(if w.tasks[t].pc.success then OSucceeded else OFailed, false))
    case Decide(id, status, modifiedArgs) =>
      Log(w, Decided(id, status, modifiedArgs))
        .(approvals := w.approvals[id := w.approvals[id].(status := status, modifiedArgs := modifiedArgs)])
    case CancelApproval(id) => w.(approvals := w.approvals[id := w.approvals[id].(status := Cancelled)])
    case Tick => w.(clock := w.clock + 1)
    case Crash => w.(tasks := map[])
  }

  /** Any list of steps is a history; a step that is not enabled does nothing. */
  function Run(w: World, steps: seq<Step>): World
    decreases |steps|
  {
    if steps == [] then w
    else
      var before := Run(w, steps[..|steps| - 1]);
      var step := steps[|steps| - 1];
      if Enabled(before, step) then Apply(before, step) else before
  }
}
