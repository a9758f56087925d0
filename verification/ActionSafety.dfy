/** What holds of every history of `ActionProtocol`. */
module ActionSafety {
  import opened Wrappers
  import opened ActionProtocol

  // ------------------------------------------------------------------ what each event needs before it

  ghost predicate Approved(log: seq<Event>, id: nat, p: Approval) {
    && Requested(id, p.toolId, p.args) in log
    && Decided(id, p.status, p.modifiedArgs) in log
  }

  /** Why an action was allowed to run: policy allowed it, or an approval for the same fingerprint was
      granted by a decision and had not expired when it was resolved. */
  ghost predicate Evidence(log: seq<Event>, t: nat, a: Action, authority: Authority, args: string) {
    match authority
    case ByPolicy => Allowed(t) in log && args == a.args
    case ByApproval(id) =>
      exists p, at ::
        && Resolved(t, id, p, at) in log
        && SameFingerprint(a, p) && (p.status.Granted? || p.status.Modified?) && Unexpired(p, at)
        && args == if p.modifiedArgs.Some? then p.modifiedArgs.value else a.args
  }

  function OwnIntent(t: nat, a: Action): Event {
    Recorded(t, Entry(a.key, Executing, Some(a.idempotency)), Intent)
  }

  ghost predicate IntentIsNewest(log: seq<Event>, t: nat, a: Action) {
    var last := LastRecord(log, a.key);
    last.Some? && log[last.value] == OwnIntent(t, a)
  }

  /** What must have happened before an event may. */
  ghost predicate LegalEvent(before: seq<Event>, e: Event) {
    match e
    case Recorded(_, entry, cause) =>
      var found := FindByKey(before, entry.key);
      && (!cause.Intent? ==> entry == CommitEntry(before, entry.key, entry.status))
      && (match cause
       case Intent => entry.status.Executing? && entry.idempotency.Some? && Passes(found, entry.idempotency.value)
       case ToolResult => !entry.status.Executing? && found.Some? && found.value.status.Executing?
       case Aborted => entry.status.Failed? && found.Some? && found.value.status.Executing?
       case Unparsable => entry.status.Failed? && (found.Some? ==> !found.value.status.Succeeded?)
       case HookThrew => entry.status.Failed? && found.Some? && !found.value.status.Executing?)
    case Invoked(t, a, authority, args) => IntentIsNewest(before, t, a) && Evidence(before, t, a, authority, args)
    case Resolved(_, id, p, _) => Approved(before, id, p)
    case _ => true
  }

  ghost predicate LegalAt(log: seq<Event>, j: nat)
    requires j < |log|
  {
    LegalEvent(log[..j], log[j])
  }

  ghost predicate LegalLog(log: seq<Event>) {
    forall j: nat {:trigger LegalAt(log, j)} | j < |log| :: LegalAt(log, j)
  }

  // ------------------------------------------------------------------ what each state needs

  ghost predicate TaskInv(log: seq<Event>, t: nat, task: Task) {
    var a := task.action;
    match task.pc
    case Fresh => true
    case Passed | Seeking | Resolving(_) => Passes(FindByKey(log, a.key), a.idempotency)
    case Authorized(authority, args) =>
      Passes(FindByKey(log, a.key), a.idempotency) && Evidence(log, t, a, authority, args)
    case Intended(authority, args) => IntentIsNewest(log, t, a) && Evidence(log, t, a, authority, args)
    case Running(authority, args) => IntentIsNewest(log, t, a)
    case Committed(_) => var found := FindByKey(log, a.key); found.Some? && !found.value.status.Executing?
    case Ended(_, _) => true
  }

  ghost predicate ApprovalInv(log: seq<Event>, id: nat, p: Approval) {
    && Requested(id, p.toolId, p.args) in log
    && (p.status.Granted? || p.status.Modified? ==> Decided(id, p.status, p.modifiedArgs) in log)
  }

  ghost predicate Inv(w: World) {
    && LegalLog(w.log)
    && (forall t | t in w.tasks :: t < w.nextTask && TaskInv(w.log, t, w.tasks[t]))
    && (forall t, u | t in w.tasks && u in w.tasks && t != u :: w.tasks[t].action.key != w.tasks[u].action.key)
    && (forall id | id in w.approvals :: ApprovalInv(w.log, id, w.approvals[id]))
  }

  lemma LastRecordSnoc(log: seq<Event>, e: Event, key: string)
    ensures LastRecord(log + [e], key)
            == if e.Recorded? && e.entry.key == key then Some(|log|) else LastRecord(log, key)
  {
    assert (log + [e])[..|log|] == log;
  }

  lemma SnocKeepsLegal(log: seq<Event>, e: Event)
    requires LegalLog(log) && LegalEvent(log, e)
    ensures LegalLog(log + [e])
  {
    var log' := log + [e];
    forall j: nat | j < |log'| ensures LegalAt(log', j) {
      assert log'[..j] == log[..j];
      if j < |log| {
        assert LegalAt(log, j);
      } else {
        assert log[..j] == log;
      }
    }
  }

  /** Events about other keys change nothing for a task. */
  lemma SnocKeepsTask(log: seq<Event>, e: Event, t: nat, task: Task)
    requires TaskInv(log, t, task) && (e.Recorded? ==> e.entry.key != task.action.key)
    ensures TaskInv(log + [e], t, task)
  {
    LastRecordSnoc(log, e, task.action.key);
    if task.pc.Authorized? || task.pc.Intended? {
      SnocKeepsEvidence(log, e, t, task.action, task.pc.authority, task.pc.args);
    }
  }

  lemma SnocKeepsEvidence(log: seq<Event>, e: Event, t: nat, a: Action, authority: Authority, args: string)
    requires Evidence(log, t, a, authority, args)
    ensures Evidence(log + [e], t, a, authority, args)
  {
    if authority.ByApproval? {
      var p, at :| && Resolved(t, authority.id, p, at) in log
                   && SameFingerprint(a, p) && (p.status.Granted? || p.status.Modified?) && Unexpired(p, at)
                   && args == if p.modifiedArgs.Some? then p.modifiedArgs.value else a.args;
      assert Resolved(t, authority.id, p, at) in log + [e];
    }
  }

  /** One legal event by task `t` about its own key, or about none, keeps the invariant. */
  lemma EventKeepsInv(w: World, t: nat, e: Event, pc: Pc)
    requires Inv(w) && t in w.tasks && LegalEvent(w.log, e)
    requires e.Recorded? ==> e.entry.key == w.tasks[t].action.key
    requires TaskInv(w.log + [e], t, w.tasks[t].(pc := pc))
    ensures Inv(Goto(Log(w, e), t, pc))
  {
    SnocKeepsLegal(w.log, e);
    var w' := Goto(Log(w, e), t, pc);
    forall u | u in w'.tasks ensures TaskInv(w'.log, u, w'.tasks[u]) {
      if u != t { SnocKeepsTask(w.log, e, u, w.tasks[u]); }
    }
    forall id | id in w'.approvals ensures ApprovalInv(w'.log, id, w'.approvals[id]) {
      assert ApprovalInv(w.log, id, w.approvals[id]);
    }
  }

  lemma GotoKeepsInv(w: World, t: nat, pc: Pc)
    requires Inv(w) && t in w.tasks && TaskInv(w.log, t, w.tasks[t].(pc := pc))
    ensures Inv(Goto(w, t, pc))
  {
  }

  lemma CommitKeepsInv(w: World, t: nat, status: EntryStatus, cause: Cause, pc: Pc)
    requires Inv(w) && t in w.tasks && (pc.Ended? || pc.Committed?)
    requires LegalEvent(w.log, Recorded(t, CommitEntry(w.log, w.tasks[t].action.key, status), cause))
    requires !status.Executing?
    ensures Inv(Commit(w, t, status, cause, pc))
  {
    var e := Recorded(t, CommitEntry(w.log, w.tasks[t].action.key, status), cause);
    LastRecordSnoc(w.log, e, w.tasks[t].action.key);
    EventKeepsInv(w, t, e, pc);
  }

  /** A change to the approval store that the log accounts for. */
  lemma ApprovalKeepsInv(w: World, id: nat, p: Approval)
    requires Inv(w) && ApprovalInv(w.log, id, p)
    ensures Inv(w.(approvals := w.approvals[id := p]))
  {
  }

  /** An event that no task depends on. */
  lemma OutsideEventKeepsInv(w: World, e: Event)
    requires Inv(w) && !e.Recorded? && LegalEvent(w.log, e)
    ensures Inv(Log(w, e))
  {
    SnocKeepsLegal(w.log, e);
    forall u | u in w.tasks ensures TaskInv(w.log + [e], u, w.tasks[u]) {
      SnocKeepsTask(w.log, e, u, w.tasks[u]);
    }
    forall id | id in w.approvals ensures ApprovalInv(w.log + [e], id, w.approvals[id]) {
      assert ApprovalInv(w.log, id, w.approvals[id]);
    }
  }

  lemma ResolveKeepsInv(w: World, t: nat)
    requires Inv(w) && Enabled(w, Resolve(t))
    ensures Inv(ResolveTask(w, t))
  {
    var a, id := w.tasks[t].action, w.tasks[t].pc.id;
    assert TaskInv(w.log, t, w.tasks[t]);
    if id in w.approvals {
      var p := w.approvals[id];
      assert ApprovalInv(w.log, id, p);
      if p.status.Granted? || p.status.Modified? {
        if !Unexpired(p, w.clock) {
          ApprovalKeepsInv(w, id, p.(status := Expired));
          GotoKeepsInv(w.(approvals := w.approvals[id := p.(status := Expired)]), t, Ended(ODenied, false));
        } else if SameFingerprint(a, p) {
          var e := Resolved(t, id, p, w.clock);
          var args := if p.modifiedArgs.Some? then p.modifiedArgs.value else a.args;
          LastRecordSnoc(w.log, e, a.key);
          assert e in w.log + [e];
          assert Evidence(w.log + [e], t, a, ByApproval(id), args);
          EventKeepsInv(w, t, e, Authorized(ByApproval(id), args));
        } else {
          GotoKeepsInv(w, t, Ended(ODenied, false));
        }
      } else {
        GotoKeepsInv(w, t, if p.status.Pending? then Ended(OAwaitingApproval, false) else Ended(ODenied, false));
      }
    } else {
      GotoKeepsInv(w, t, Ended(ODenied, false));
    }
  }

  lemma ParseKeepsInv(w: World, t: nat, ok: bool)
    requires Inv(w) && Enabled(w, Parse(t, ok))
    ensures Inv(Apply(w, Parse(t, ok)))
  {
    var a, pc := w.tasks[t].action, w.tasks[t].pc;
    assert TaskInv(w.log, t, w.tasks[t]);
    if ok {
      var e := OwnIntent(t, a);
      LastRecordSnoc(w.log, e, a.key);
      SnocKeepsEvidence(w.log, e, t, a, pc.authority, pc.args);
      assert (w.log + [e])[|w.log|] == e;
      EventKeepsInv(w, t, e, Intended(pc.authority, pc.args));
    } else {
      CommitKeepsInv(w, t, Failed, Unparsable, Ended(OFailed, false));
    }
  }

  lemma InvokeKeepsInv(w: World, t: nat, aborted: bool)
    requires Inv(w) && Enabled(w, Invoke(t, aborted))
    ensures Inv(Apply(w, Invoke(t, aborted)))
  {
    var a, pc := w.tasks[t].action, w.tasks[t].pc;
    assert TaskInv(w.log, t, w.tasks[t]);
    if aborted {
      CommitKeepsInv(w, t, Failed, Aborted, Ended(OFailed, false));
    } else {
      var e := Invoked(t, a, pc.authority, pc.args);
      LastRecordSnoc(w.log, e, a.key);
      EventKeepsInv(w, t, e, Running(pc.authority, pc.args));
    }
  }

  lemma FinishKeepsInv(w: World, t: nat, success: bool, threw: bool)
    requires Inv(w) && Enabled(w, Finish(t, success, threw))
    ensures Inv(Apply(w, Finish(t, success, threw)))
  {
    assert TaskInv(w.log, t, w.tasks[t]);
    if threw {
      CommitKeepsInv(w, t, Failed, ToolResult, Ended(OFailed, false));
    } else {
      CommitKeepsInv(w, t, if success then Succeeded else Failed, ToolResult, Committed(success));
    }
  }

  lemma HookKeepsInv(w: World, t: nat, threw: bool)
    requires Inv(w) && Enabled(w, Hook(t, threw))
    ensures Inv(Apply(w, Hook(t, threw)))
  {
    assert TaskInv(w.log, t, w.tasks[t]);
    if threw {
      CommitKeepsInv(w, t, Failed, HookThrew, Ended(OFailed, false));
    } else {
      GotoKeepsInv(w, t, Ended(if w.tasks[t].pc.success then OSucceeded else OFailed, false));
    }
  }

  lemma RequestKeepsInv(w: World, t: nat, id: nat, ttl: Option<nat>)
    requires Inv(w) && Enabled(w, RequestApproval(t, id, ttl))
    ensures Inv(Apply(w, RequestApproval(t, id, ttl)))
  {
    var a := w.tasks[t].action;
    var e := Requested(id, a.toolId, a.args);
    EventKeepsInv(w, t, e, Ended(OAwaitingApproval, false));
    var expires := if ttl.Some? then Some(w.clock + ttl.value) else None;
    assert e in w.log + [e];
    ApprovalKeepsInv(Goto(Log(w, e), t, Ended(OAwaitingApproval, false)), id,
                     Approval(a.toolId, a.args, Pending, w.clock, expires, None));
  }

  lemma DecideKeepsInv(w: World, id: nat, status: ApprovalStatus, modifiedArgs: Option<string>)
    requires Inv(w) && Enabled(w, Decide(id, status, modifiedArgs))
    ensures Inv(Apply(w, Decide(id, status, modifiedArgs)))
  {
    var e := Decided(id, status, modifiedArgs);
    assert ApprovalInv(w.log, id, w.approvals[id]);
    OutsideEventKeepsInv(w, e);
    assert e in w.log + [e] && Requested(id, w.approvals[id].toolId, w.approvals[id].args) in w.log + [e];
    ApprovalKeepsInv(Log(w, e), id, w.approvals[id].(status := status, modifiedArgs := modifiedArgs));
  }

  lemma AllowKeepsInv(w: World, t: nat)
    requires Inv(w) && Enabled(w, PolicyAllows(t))
    ensures Inv(Apply(w, PolicyAllows(t)))
  {
    assert TaskInv(w.log, t, w.tasks[t]);
    LastRecordSnoc(w.log, Allowed(t), w.tasks[t].action.key);
    assert Allowed(t) in w.log + [Allowed(t)];
    EventKeepsInv(w, t, Allowed(t), Authorized(ByPolicy, w.tasks[t].action.args));
  }

  /** The steps that only move a task on. */
  lemma MoveKeepsInv(w: World, step: Step)
    requires Inv(w) && Enabled(w, step)
    requires step.Lookup? || step.PolicyDenies? || step.PolicyAsks? || step.FindApproval?
    ensures Inv(Apply(w, step))
  {
    var t := step.t;
    assert TaskInv(w.log, t, w.tasks[t]);
    match step
    case Lookup(_, toolKnown) => GotoKeepsInv(w, t, LookupTask(w, t, toolKnown).tasks[t].pc);
    case PolicyDenies(_) => GotoKeepsInv(w, t, Ended(ODenied, false));
    case PolicyAsks(_, channel) => GotoKeepsInv(w, t, if channel then Seeking else Ended(ODenied, false));
    case FindApproval(_, id) => GotoKeepsInv(w, t, Resolving(id));
  }

  lemma CancelKeepsInv(w: World, id: nat)
    requires Inv(w) && Enabled(w, CancelApproval(id))
    ensures Inv(Apply(w, CancelApproval(id)))
  {
    assert ApprovalInv(w.log, id, w.approvals[id]);
    ApprovalKeepsInv(w, id, w.approvals[id].(status := Cancelled));
  }

  lemma BeginKeepsInv(w: World, actions: seq<Action>)
    requires Inv(w) && Enabled(w, BeginBatch(actions))
    ensures Inv(Apply(w, BeginBatch(actions)))
  {
  }

  lemma {:induction false} StepKeepsInv(w: World, step: Step)
    requires Inv(w) && Enabled(w, step)
    ensures Inv(Apply(w, step))
  {
    match step
    case Lookup(_, _) | PolicyDenies(_) | PolicyAsks(_, _) | FindApproval(_, _) => MoveKeepsInv(w, step);
    case PolicyAllows(t) => AllowKeepsInv(w, t);
    case RequestApproval(t, id, ttl) => RequestKeepsInv(w, t, id, ttl);
    case Resolve(t) => ResolveKeepsInv(w, t);
    case Parse(t, ok) => ParseKeepsInv(w, t, ok);
    case Invoke(t, aborted) => InvokeKeepsInv(w, t, aborted);
    case Finish(t, success, threw) => FinishKeepsInv(w, t, success, threw);
    case Hook(t, threw) => HookKeepsInv(w, t, threw);
    case Decide(id, status, modifiedArgs) => DecideKeepsInv(w, id, status, modifiedArgs);
    case CancelApproval(id) => CancelKeepsInv(w, id);
    case BeginBatch(actions) => BeginKeepsInv(w, actions);
    case Tick =>
    case Crash =>
  }

  lemma {:induction false} RunKeepsInv(steps: seq<Step>)
    ensures Inv(Run(START, steps))
    decreases |steps|
  {
    if steps != [] {
      RunKeepsInv(steps[..|steps| - 1]);
      var before, step := Run(START, steps[..|steps| - 1]), steps[|steps| - 1];
      if Enabled(before, step) { StepKeepsInv(before, step); }
    }
  }

  // ------------------------------------------------------------------ the promises

  ghost predicate Reached(w: World) {
    exists steps :: Run(START, steps) == w
  }

  lemma ReachedLegal(w: World)
    requires Reached(w)
    ensures LegalLog(w.log)
  {
    var steps :| Run(START, steps) == w;
    RunKeepsInv(steps);
  }

  predicate IsRecord(e: Event, key: string, status: EntryStatus) {
    e.Recorded? && e.entry.key == key && e.entry.status == status
  }

  predicate IsInvocation(e: Event, key: string) {
    e.Invoked? && e.action.key == key
  }

  /** Every invocation was preceded by the intent record of the same attempt, the newest entry of its
      key, and by an ALLOW or by a requested, decided, unexpired approval of the same fingerprint;
      the arguments are the requested ones or those the approver substituted. */
  lemma InvocationsAreJournaledAndAuthorized(w: World, j: nat)
    requires Reached(w) && j < |w.log| && w.log[j].Invoked?
    ensures var e := w.log[j];
            && IntentIsNewest(w.log[..j], e.task, e.action)
            && Evidence(w.log[..j], e.task, e.action, e.authority, e.args)
            && (e.authority.ByApproval? ==> exists p ::
                Approved(w.log[..j], e.authority.id, p) && SameFingerprint(e.action, p))
  {
    ReachedLegal(w);
    assert LegalAt(w.log, j);
    var e := w.log[j];
    if e.authority.ByApproval? {
      var p, at :| Resolved(e.task, e.authority.id, p, at) in w.log[..j] && SameFingerprint(e.action, p);
      var i: nat :| i < j && w.log[i] == Resolved(e.task, e.authority.id, p, at);
      assert LegalAt(w.log, i);
      assert w.log[..i] <= w.log[..j];
      assert Approved(w.log[..j], e.authority.id, p);
    }
  }

  /** Once a key succeeded, its newest entry can only become something else after a hook failure. */
  lemma {:induction false} SuccessIsOnlyLostToHook(log: seq<Event>, i: nat, n: nat, key: string) returns (m: nat)
    requires LegalLog(log) && i < n <= |log| && IsRecord(log[i], key, Succeeded)
    requires !FindByKey(log[..n], key).value.status.Succeeded?
    ensures i < m < n && IsRecord(log[m], key, Failed) && log[m].cause.HookThrew?
    decreases n
  {
    assert log[..n][i] == log[i];
    m := LastRecord(log[..n], key).value;
    assert log[..n][m] == log[m];
    assert LegalAt(log, m);
    if !log[m].cause.HookThrew? {
      assert log[..m][i] == log[i];
      m := SuccessIsOnlyLostToHook(log, i, m, key);
    }
  }

  /** Between a failure of a key and the next running attempt lies an intent whose guard saw a failure
      and let it pass because repeating is safe. */
  lemma {:induction false} FailureNeedsReplaySafe(log: seq<Event>, i: nat, n: nat, key: string) returns (m: nat)
    requires LegalLog(log) && i < n <= |log| && IsRecord(log[i], key, Failed)
    requires FindByKey(log[..n], key).value.status.Executing?
    ensures i < m < n && IsRecord(log[m], key, Executing) && log[m].entry.idempotency.Some?
    ensures var found := FindByKey(log[..m], key);
            found.Some? && found.value.status.Failed? && ReplaySafe(Basis(found.value, log[m].entry.idempotency.value))
    decreases n
  {
    assert log[..n][i] == log[i];
    m := LastRecord(log[..n], key).value;
    assert log[..n][m] == log[m];
    assert LegalAt(log, m);
    assert log[..m][i] == log[i];
    if !FindByKey(log[..m], key).value.status.Failed? {
      m := FailureNeedsReplaySafe(log, i, m, key);
    }
  }

  /** After a failed commit the tool is invoked again for the key only if repeating it is safe. */
  lemma FailedKeyReinvokedOnlyIfSafe(w: World, i: nat, j: nat, key: string)
    requires Reached(w) && i < j < |w.log| && IsRecord(w.log[i], key, Failed) && IsInvocation(w.log[j], key)
    ensures exists m | i < m < j :: RetriedSafely(w.log, m, key)
  {
    ReachedLegal(w);
    assert LegalAt(w.log, j);
    assert w.log[..j][i] == w.log[i];
    var m := FailureNeedsReplaySafe(w.log, i, j, key);
    assert RetriedSafely(w.log, m, key);
  }

  predicate RetriedSafely(log: seq<Event>, m: nat, key: string) {
    && m < |log| && IsRecord(log[m], key, Executing) && log[m].entry.idempotency.Some?
    && var found := FindByKey(log[..m], key);
       found.Some? && found.value.status.Failed? && ReplaySafe(Basis(found.value, log[m].entry.idempotency.value))
  }

  predicate HookFailure(log: seq<Event>, m: nat, key: string) {
    m < |log| && IsRecord(log[m], key, Failed) && log[m].cause.HookThrew?
  }

  /** After a succeeded commit the tool is never invoked for the key again, unless the invocation hook
      threw after the commit and the action is safe to repeat: only then can it be. */
  lemma SucceededKeyNeverReinvoked(w: World, i: nat, j: nat, key: string)
    requires Reached(w) && i < j < |w.log| && IsRecord(w.log[i], key, Succeeded) && IsInvocation(w.log[j], key)
    ensures exists m, n | i < m < n < j :: HookFailure(w.log, m, key) && RetriedSafely(w.log, n, key)
  {
    ReachedLegal(w);
    assert LegalAt(w.log, j);
    assert w.log[..j][i] == w.log[i];
    var m := SuccessIsOnlyLostToHook(w.log, i, j, key);
    assert HookFailure(w.log, m, key);
    assert w.log[..j][m] == w.log[m];
    var n := FailureNeedsReplaySafe(w.log, m, j, key);
    assert RetriedSafely(w.log, n, key);
  }

  predicate IsIntent(e: Event, key: string) {
    e.Recorded? && e.entry.key == key && e.cause.Intent?
  }

  predicate Declares(e: Event, key: string, i: Idempotency) {
    IsIntent(e, key) && e.entry.idempotency == Some(i)
  }

  /** What a journal entry says of repeating was declared by an intent of its key. */
  lemma {:induction false} DeclaredByIntent(log: seq<Event>, n: nat, key: string) returns (m: nat)
    requires LegalLog(log) && n <= |log|
    requires var found := FindByKey(log[..n], key); found.Some? && found.value.idempotency.Some?
    ensures m < n && Declares(log[m], key, FindByKey(log[..n], key).value.idempotency.value)
    decreases n
  {
    m := LastRecord(log[..n], key).value;
    assert log[..n][m] == log[m];
    assert LegalAt(log, m);
    if !log[m].cause.Intent? {
      m := DeclaredByIntent(log, m, key);
    }
  }

  /** A success is repeated only for a key that some intent declared safe to repeat. */
  lemma RepeatNeedsDeclaration(w: World, i: nat, j: nat, key: string) returns (m: nat, declared: Idempotency)
    requires Reached(w) && i < j < |w.log| && IsRecord(w.log[i], key, Succeeded) && IsInvocation(w.log[j], key)
    ensures m < j && ReplaySafe(declared) && Declares(w.log[m], key, declared)
  {
    SucceededKeyNeverReinvoked(w, i, j, key);
    var h, n: nat :| i < h < n < j && HookFailure(w.log, h, key) && RetriedSafely(w.log, n, key);
    ReachedLegal(w);
    assert LegalAt(w.log, n);
    var found := FindByKey(w.log[..n], key).value;
    declared := Basis(found, w.log[n].entry.idempotency.value);
    if found.idempotency.Some? {
      m := DeclaredByIntent(w.log, n, key);
    } else {
      m := n;
    }
  }

  predicate AllDeclare(log: seq<Event>, key: string, i: Idempotency) {
    forall e | e in log && IsIntent(e, key) :: Declares(e, key, i)
  }

  /** The tool is invoked for a key after the key succeeded. */
  predicate RepeatsSuccess(log: seq<Event>, key: string) {
    exists i, j | 0 <= i < j < |log| :: IsRecord(log[i], key, Succeeded) && IsInvocation(log[j], key)
  }

  /** The exact condition: a success of a key whose actions all declare the same idempotency can be
      repeated exactly when that idempotency is one that makes repeating safe. */
  lemma RepeatableIffReplaySafe(a: Action)
    ensures (exists steps :: RepeatsSuccess(Run(START, steps).log, a.key)
              && AllDeclare(Run(START, steps).log, a.key, a.idempotency))
            <==> ReplaySafe(a.idempotency)
  {
    if ReplaySafe(a.idempotency) {
      var steps := HookFailureRepeatsSuccess(a);
      var log := Run(START, steps).log;
      assert IsRecord(log[3], a.key, Succeeded) && IsInvocation(log[7], a.key);
    }
    forall steps | RepeatsSuccess(Run(START, steps).log, a.key)
        && AllDeclare(Run(START, steps).log, a.key, a.idempotency)
      ensures ReplaySafe(a.idempotency)
    {
      var w := Run(START, steps);
      var i: nat, j: nat :| i < j < |w.log| && IsRecord(w.log[i], a.key, Succeeded) && IsInvocation(w.log[j], a.key);
      var m, declared := RepeatNeedsDeclaration(w, i, j, a.key);
      assert w.log[m] in w.log;
    }
  }

  lemma RunSnoc(w: World, steps: seq<Step>, step: Step)
    ensures Run(w, steps + [step])
            == if Enabled(Run(w, steps), step) then Apply(Run(w, steps), step) else Run(w, steps)
  {
    assert (steps + [step])[..|steps + [step]| - 1] == steps;
  }

  /** A history in which an action runs from its lookup to its intent. */
  lemma ToIntent(steps: seq<Step>, t: nat, a: Action) returns (intended: seq<Step>)
    requires var w := Run(START, steps);
             t in w.tasks && w.tasks[t] == Task(a, Fresh) && Passes(FindByKey(w.log, a.key), a.idempotency)
    ensures var w := Run(START, steps);
            var r := Run(START, intended);
            && r.log == w.log + [Allowed(t), OwnIntent(t, a)] && r.nextTask == w.nextTask
            && r.tasks == w.tasks[t := Task(a, Intended(ByPolicy, a.args))]
  {
    var s1 := steps + [Lookup(t, true)];
    RunSnoc(START, steps, Lookup(t, true));
    var s2 := s1 + [PolicyAllows(t)];
    RunSnoc(START, s1, PolicyAllows(t));
    intended := s2 + [Parse(t, true)];
    RunSnoc(START, s2, Parse(t, true));
  }

  lemma InvokeStep(w: World, t: nat, a: Action)
    requires t in w.tasks && w.tasks[t] == Task(a, Intended(ByPolicy, a.args))
    ensures Enabled(w, Invoke(t, false))
    ensures Apply(w, Invoke(t, false)) == Goto(Log(w, Invoked(t, a, ByPolicy, a.args)), t, Running(ByPolicy, a.args))
  {
  }

  lemma FinishStep(w: World, t: nat, a: Action)
    requires t in w.tasks && w.tasks[t] == Task(a, Running(ByPolicy, a.args))
    requires FindByKey(w.log, a.key) == Some(Entry(a.key, Executing, Some(a.idempotency)))
    ensures Enabled(w, Finish(t, true, false))
    ensures Apply(w, Finish(t, true, false))
            == Goto(Log(w, Recorded(t, Entry(a.key, Succeeded, Some(a.idempotency)), ToolResult)), t, Committed(true))
  {
  }

  /** A history in which a batch of one action runs from its lookup to the tool's answer. */
  lemma OneAttempt(steps: seq<Step>, t: nat, a: Action) returns (invoked: seq<Step>, committed: seq<Step>)
    requires var w := Run(START, steps);
             t in w.tasks && w.tasks[t] == Task(a, Fresh) && Passes(FindByKey(w.log, a.key), a.idempotency)
    ensures var w := Run(START, steps);
            Run(START, invoked).log == w.log + [Allowed(t), OwnIntent(t, a), Invoked(t, a, ByPolicy, a.args)]
    ensures var w := Run(START, invoked);
            var done := Run(START, committed);
            && done.log == w.log + [Recorded(t, Entry(a.key, Succeeded, Some(a.idempotency)), ToolResult)]
            && done.tasks == Run(START, steps).tasks[t := Task(a, Committed(true))]
            && done.nextTask == Run(START, steps).nextTask
  {
    var s3 := ToIntent(steps, t, a);
    invoked := s3 + [Invoke(t, false)];
    RunSnoc(START, s3, Invoke(t, false));
    InvokeStep(Run(START, s3), t, a);
    var w := Run(START, invoked);
    NewestAfterInvoke(Run(START, steps).log, w.log, t, a);
    committed := invoked + [Finish(t, true, false)];
    RunSnoc(START, invoked, Finish(t, true, false));
    FinishStep(w, t, a);
  }

  lemma NewestAfterInvoke(before: seq<Event>, log: seq<Event>, t: nat, a: Action)
    requires log == before + [Allowed(t), OwnIntent(t, a)] + [Invoked(t, a, ByPolicy, a.args)]
    ensures FindByKey(log, a.key) == Some(Entry(a.key, Executing, Some(a.idempotency)))
  {
    var intended := before + [Allowed(t)] + [OwnIntent(t, a)];
    assert log == intended + [Invoked(t, a, ByPolicy, a.args)];
    LastRecordSnoc(before + [Allowed(t)], OwnIntent(t, a), a.key);
    LastRecordSnoc(intended, Invoked(t, a, ByPolicy, a.args), a.key);
  }

  lemma HookStep(w: World, t: nat, a: Action)
    requires t in w.tasks && w.tasks[t] == Task(a, Committed(true))
    requires FindByKey(w.log, a.key) == Some(Entry(a.key, Succeeded, Some(a.idempotency)))
    ensures Enabled(w, Hook(t, true))
    ensures Apply(w, Hook(t, true))
            == Goto(Log(w, Recorded(t, Entry(a.key, Failed, Some(a.idempotency)), HookThrew)), t, Ended(OFailed, false))
  {
  }

  lemma BeginStep(w: World, a: Action)
    requires forall t | t in w.tasks :: w.tasks[t].pc.Ended?
    ensures Enabled(w, BeginBatch([a]))
    ensures Apply(w, BeginBatch([a])) == w.(tasks := map[w.nextTask := Task(a, Fresh)], nextTask := w.nextTask + 1)
  {
  }

  /** What a first attempt writes when its commit succeeds and the hook then throws. */
  function HookedLog(a: Action): seq<Event> {
    [Allowed(0), OwnIntent(0, a), Invoked(0, a, ByPolicy, a.args),
     Recorded(0, Entry(a.key, Succeeded, Some(a.idempotency)), ToolResult),
     Recorded(0, Entry(a.key, Failed, Some(a.idempotency)), HookThrew)]
  }

  lemma SuccessThenHookFailure(a: Action) returns (steps: seq<Step>)
    requires ReplaySafe(a.idempotency)
    ensures var w := Run(START, steps);
            w.nextTask == 1 && (forall t | t in w.tasks :: w.tasks[t].pc.Ended?) && w.log == HookedLog(a)
  {
    var s0 := [BeginBatch([a])];
    assert [] + [BeginBatch([a])] == s0;
    RunSnoc(START, [], BeginBatch([a]));
    BeginStep(START, a);
    var s1, s2 := OneAttempt(s0, 0, a);
    var w := Run(START, s2);
    LastRecordSnoc(Run(START, s1).log, Recorded(0, Entry(a.key, Succeeded, Some(a.idempotency)), ToolResult), a.key);
    steps := s2 + [Hook(0, true)];
    RunSnoc(START, s2, Hook(0, true));
    HookStep(w, 0, a);
  }

  /** The hook can indeed undo the guard: an action that is safe to repeat is invoked a second time
      after its commit succeeded, because the hook after that commit threw. */
  lemma HookFailureRepeatsSuccess(a: Action) returns (steps: seq<Step>)
    requires ReplaySafe(a.idempotency)
    ensures var w := Run(START, steps);
            && |w.log| == 8 && AllDeclare(w.log, a.key, a.idempotency)
            && IsRecord(w.log[3], a.key, Succeeded) && HookFailure(w.log, 4, a.key) && IsInvocation(w.log[7], a.key)
  {
    var s2 := SuccessThenHookFailure(a);
    var s3 := s2 + [BeginBatch([a])];
    RunSnoc(START, s2, BeginBatch([a]));
    BeginStep(Run(START, s2), a);
    LastRecordSnoc(HookedLog(a)[..4], HookedLog(a)[4], a.key);
    assert HookedLog(a) == HookedLog(a)[..4] + [HookedLog(a)[4]];
    var s4, _ := OneAttempt(s3, 1, a);
    steps := s4;
    assert Run(START, steps).log == HookedLog(a) + [Allowed(1), OwnIntent(1, a), Invoked(1, a, ByPolicy, a.args)];
  }
}
