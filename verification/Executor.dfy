/** The executor as a program: one action carried through the protocol without interruption. */
module Executor {
  import opened Wrappers
  import opened ActionProtocol
  import Safety = ActionSafety

  datatype PolicyOutcome = Allow | Deny | RequireApproval

  /** What the world outside answers while one action is executed: the tool registry, the policy engine, the
      approval query, the argument schema, the abort signal, the tool itself and the invocation hook. */
  datatype Answers = Answers(
    toolKnown: bool,
    policy: PolicyOutcome,
    channel: bool,
    existing: Option<nat>,
    freshId: nat,
    ttl: Option<nat>,
    parses: bool,
    aborted: bool,
    success: bool,
    toolThrew: bool,
    hookThrew: bool)

  datatype Outcome = Outcome(actionId: string, status: OutcomeStatus, replayed: bool)

  /** `existing` is what `findForAction` returns, and a requested approval gets an unused id. */
  predicate Fits(w: World, a: Action, ans: Answers) {
    && (match ans.existing
        case Some(id) => IsNewestMatch(w, a, id)
        case None => forall j | j in w.approvals :: !Matches(w, a, j))
    && ans.freshId !in w.approvals
  }

  /** The next step of task `t`, given the answers. */
  function NextStep(w: World, t: nat, ans: Answers): Step
    requires t in w.tasks && !w.tasks[t].pc.Ended?
  {
    match w.tasks[t].pc
    case Fresh => Lookup(t, ans.toolKnown)
    case Passed =>
      (match ans.policy
       case Allow => PolicyAllows(t)
       case Deny => PolicyDenies(t)
       case RequireApproval => PolicyAsks(t, ans.channel))
    case Seeking =>
      if w.tasks[t].action.approvalRef.Some? then FindApproval(t, w.tasks[t].action.approvalRef.value)
      else if ans.existing.Some? then FindApproval(t, ans.existing.value)
      else RequestApproval(t, ans.freshId, ans.ttl)
    case Resolving(_) => Resolve(t)
    case Authorized(_, _) => Parse(t, ans.parses)
    case Intended(_, _) => Invoke(t, ans.aborted)
    case Running(_, _) => Finish(t, ans.success, ans.toolThrew)
    case Committed(_) => Hook(t, ans.hookThrew)
  }

  function Distance(pc: Pc): nat {
    match pc
    case Fresh => 9
    case Passed => 8
    case Seeking => 7
    case Resolving(_) => 6
    case Authorized(_, _) => 5
    case Intended(_, _) => 4
    case Running(_, _) => 3
    case Committed(_) => 2
    case Ended(_, _) => 0
  }

  predicate FitsAt(w: World, t: nat, ans: Answers) {
    && t in w.tasks
    && (w.tasks[t].pc.Fresh? || w.tasks[t].pc.Passed? || w.tasks[t].pc.Seeking? ==> Fits(w, w.tasks[t].action, ans))
  }

  lemma NextStepEnabled(w: World, t: nat, ans: Answers)
    requires FitsAt(w, t, ans) && !w.tasks[t].pc.Ended?
    ensures Enabled(w, NextStep(w, t, ans))
  {
  }

  predicate Closer(w: World, w': World, t: nat) {
    && t in w.tasks && t in w'.tasks && w'.tasks[t].action == w.tasks[t].action
    && Distance(w'.tasks[t].pc) < Distance(w.tasks[t].pc)
    && (Distance(w'.tasks[t].pc) >= 7 ==> w'.approvals == w.approvals)
  }

  lemma LookupMoves(w: World, t: nat, toolKnown: bool)
    requires Enabled(w, Lookup(t, toolKnown))
    ensures Closer(w, Apply(w, Lookup(t, toolKnown)), t)
  {
  }

  lemma PolicyMoves(w: World, t: nat, step: Step)
    requires Enabled(w, step) && (step.PolicyAllows? || step.PolicyDenies? || step.PolicyAsks?) && step.t == t
    ensures Closer(w, Apply(w, step), t)
  {
  }

  lemma ApprovalMoves(w: World, t: nat, step: Step)
    requires Enabled(w, step) && (step.FindApproval? || step.RequestApproval? || step.Resolve?) && step.t == t
    ensures Closer(w, Apply(w, step), t)
  {
  }

  lemma ToolMoves(w: World, t: nat, step: Step)
    requires Enabled(w, step) && (step.Parse? || step.Invoke? || step.Finish? || step.Hook?) && step.t == t
    ensures Closer(w, Apply(w, step), t)
  {
  }

  lemma NextStepMoves(w: World, t: nat, ans: Answers)
    requires t in w.tasks && !w.tasks[t].pc.Ended? && Enabled(w, NextStep(w, t, ans))
    ensures Closer(w, Apply(w, NextStep(w, t, ans)), t)
  {
    var step := NextStep(w, t, ans);
    match w.tasks[t].pc
    case Fresh => LookupMoves(w, t, ans.toolKnown);
    case Passed => PolicyMoves(w, t, step);
    case Seeking => ApprovalMoves(w, t, step);
    case Resolving(_) => ApprovalMoves(w, t, step);
    case Authorized(_, _) => ToolMoves(w, t, step);
    case Intended(_, _) => ToolMoves(w, t, step);
    case Running(_, _) => ToolMoves(w, t, step);
    case Committed(_) => ToolMoves(w, t, step);
  }

  lemma NextStepFits(w: World, t: nat, ans: Answers)
    requires FitsAt(w, t, ans) && !w.tasks[t].pc.Ended?
    ensures Enabled(w, NextStep(w, t, ans))
    ensures var w' := Apply(w, NextStep(w, t, ans));
            && FitsAt(w', t, ans) && w'.tasks[t].action == w.tasks[t].action
            && Distance(w'.tasks[t].pc) < Distance(w.tasks[t].pc)
  {
    NextStepEnabled(w, t, ans);
    NextStepMoves(w, t, ans);
    var w' := Apply(w, NextStep(w, t, ans));
    if Distance(w'.tasks[t].pc) >= 7 {
      FitsSameApprovals(w, w', w.tasks[t].action, ans);
    }
  }

  lemma FitsSameApprovals(w: World, w': World, a: Action, ans: Answers)
    requires Fits(w, a, ans) && w'.approvals == w.approvals
    ensures Fits(w', a, ans)
  {
    if ans.existing.Some? {
      forall j | j in w'.approvals && Matches(w', a, j)
        ensures w'.approvals[j].requestedAt <= w'.approvals[ans.existing.value].requestedAt
      {
        assert Matches(w, a, j);
      }
    } else {
      forall j | j in w'.approvals ensures !Matches(w', a, j) {
        assert !Matches(w, a, j);
      }
    }
  }

  /** The steps of one action, from where it stands to its outcome. */
  function Solo(w: World, t: nat, ans: Answers): World
    requires FitsAt(w, t, ans)
    decreases Distance(w.tasks[t].pc)
  {
    if w.tasks[t].pc.Ended? then w
    else
      NextStepFits(w, t, ans);
      Solo(Apply(w, NextStep(w, t, ans)), t, ans)
  }

  /** Taking the next step leaves the end of the walk where it was. */
  lemma SoloStep(w: World, t: nat, ans: Answers)
    requires FitsAt(w, t, ans) && !w.tasks[t].pc.Ended?
    ensures Enabled(w, NextStep(w, t, ans)) && FitsAt(Apply(w, NextStep(w, t, ans)), t, ans)
    ensures Solo(w, t, ans) == Solo(Apply(w, NextStep(w, t, ans)), t, ans)
  {
    NextStepFits(w, t, ans);
  }

  lemma {:induction false} SoloEnds(w: World, t: nat, ans: Answers)
    requires FitsAt(w, t, ans)
    ensures t in Solo(w, t, ans).tasks && Solo(w, t, ans).tasks[t].pc.Ended?
    decreases Distance(w.tasks[t].pc)
  {
    if !w.tasks[t].pc.Ended? {
      NextStepFits(w, t, ans);
      SoloEnds(Apply(w, NextStep(w, t, ans)), t, ans);
    }
  }

  /** Executing one action is a history of the protocol, so everything `ActionSafety` promises holds of it. */
  lemma {:induction false} SoloIsAHistory(w: World, t: nat, ans: Answers)
    requires FitsAt(w, t, ans) && Safety.Reached(w)
    ensures Safety.Reached(Solo(w, t, ans))
    decreases Distance(w.tasks[t].pc)
  {
    if !w.tasks[t].pc.Ended? {
      NextStepFits(w, t, ans);
      var steps :| Run(START, steps) == w;
      Safety.RunSnoc(START, steps, NextStep(w, t, ans));
      SoloIsAHistory(Apply(w, NextStep(w, t, ans)), t, ans);
    }
  }

  // ------------------------------------------------------------------ what one execution answers and writes

  /** Record `i` is the newest journal entry of a key. */
  ghost predicate NewestRecord(log: seq<Event>, i: int, key: string) {
    && 0 <= i < |log| && log[i].Recorded? && log[i].entry.key == key
    && forall j | i < j < |log| && log[j].Recorded? :: log[j].entry.key != key
  }

  ghost predicate NewestSucceeded(log: seq<Event>, key: string) {
    exists i :: NewestRecord(log, i, key) && log[i].entry.status == Succeeded
  }

  /** The newest entry is a failure that must not be repeated: neither the entry, nor the action if the entry does not
      say, is idempotent or retry-safe. */
  ghost predicate NewestFailedForGood(log: seq<Event>, a: Action) {
    exists i ::
      && NewestRecord(log, i, a.key) && log[i].entry.status == Failed
      && match log[i].entry.idempotency
         case Some(kind) => kind == NonIdempotent || kind == Unknown
         case None => a.idempotency == NonIdempotent || a.idempotency == Unknown
  }

  ghost predicate Replays(log: seq<Event>, a: Action) {
    NewestSucceeded(log, a.key) || NewestFailedForGood(log, a)
  }

  /** The approval an action relies on: its own reference, else the one found. */
  function ApprovalOf(a: Action, ans: Answers): Option<nat> {
    if a.approvalRef.Some? then a.approvalRef else ans.existing
  }

  /** Granted or modified, not expired, for the same tool and arguments. */
  predicate Usable(approvals: map<nat, Approval>, clock: nat, a: Action, id: nat) {
    && id in approvals
    && (approvals[id].status == Granted || approvals[id].status == Modified)
    && (approvals[id].expiresAt.None? || clock < approvals[id].expiresAt.value)
    && approvals[id].toolId == a.toolId && approvals[id].args == a.args
  }

  predicate IsPending(approvals: map<nat, Approval>, id: nat) {
    id in approvals && approvals[id].status == Pending
  }

  predicate AsksChannel(ans: Answers) {
    ans.policy == RequireApproval && ans.channel
  }

  /** The action may run: policy allows it, or it has a usable approval. */
  predicate MayRun(approvals: map<nat, Approval>, clock: nat, a: Action, ans: Answers) {
    || ans.policy == Allow
    || (AsksChannel(ans) && ApprovalOf(a, ans).Some? && Usable(approvals, clock, a, ApprovalOf(a, ans).value))
  }

  /** No approval was asked for yet, or the one asked for is undecided. */
  predicate MustWait(approvals: map<nat, Approval>, a: Action, ans: Answers) {
    AsksChannel(ans) && (ApprovalOf(a, ans).None? || IsPending(approvals, ApprovalOf(a, ans).value))
  }

  predicate ToolSucceeds(ans: Answers) {
    ans.parses && !ans.aborted && !ans.toolThrew && ans.success && !ans.hookThrew
  }

  /** Why an outcome is what it is, once the replay guard let the action through. */
  ghost predicate Justified(o: Outcome, approvals: map<nat, Approval>, clock: nat, a: Action, ans: Answers) {
    && !o.replayed && o.status != OAlreadyCommitted
    && (o.status == OSucceeded <==> MayRun(approvals, clock, a, ans) && ToolSucceeds(ans))
    && (o.status == OFailed <==> MayRun(approvals, clock, a, ans) && !ToolSucceeds(ans))
    && (o.status == OAwaitingApproval <==> MustWait(approvals, a, ans))
    && (o.status == ODenied <==> !MayRun(approvals, clock, a, ans) && !MustWait(approvals, a, ans))
  }

  /** The arguments the tool gets, and on whose authority. */
  function AuthorityOf(a: Action, ans: Answers): Authority {
    if ans.policy != Allow && ApprovalOf(a, ans).Some? then ByApproval(ApprovalOf(a, ans).value) else ByPolicy
  }

  function ArgumentsOf(approvals: map<nat, Approval>, a: Action, ans: Answers): string {
    match AuthorityOf(a, ans)
    case ByPolicy => a.args
    case ByApproval(id) =>
      if id in approvals && approvals[id].modifiedArgs.Some? then approvals[id].modifiedArgs.value else a.args
  }

  function ResultRecord(t: nat, a: Action, status: EntryStatus, cause: Cause): Event {
    Recorded(t, Entry(a.key, status, Some(a.idempotency)), cause)
  }

  /** What is written from the intent on. */
  function AfterIntent(t: nat, a: Action, authority: Authority, args: string, ans: Answers): seq<Event> {
    if ans.aborted then [ResultRecord(t, a, Failed, Aborted)]
    else [Invoked(t, a, authority, args)] + AfterInvocation(t, a, ans)
  }

  function AfterInvocation(t: nat, a: Action, ans: Answers): seq<Event> {
    [ResultRecord(t, a, if !ans.toolThrew && ans.success then Succeeded else Failed, ToolResult)]
    + if !ans.toolThrew && ans.hookThrew then [ResultRecord(t, a, Failed, HookThrew)] else []
  }

  /** What an authorized action writes: arguments that do not parse leave a failure without an intent. */
  ghost predicate WritesRun(
      log: seq<Event>, log': seq<Event>, t: nat, a: Action, authority: Authority, args: string, ans: Answers)
  {
    if ans.parses then log' == log + [ResultRecord(t, a, Executing, Intent)] + AfterIntent(t, a, authority, args, ans)
    else
      && |log'| == |log| + 1 && log'[..|log|] == log
      && var e := log'[|log|];
         && e.Recorded? && e.task == t && e.cause == Unparsable && e.entry.key == a.key && e.entry.status == Failed
         && (forall i | NewestRecord(log, i, a.key) :: e.entry.idempotency == log[i].entry.idempotency)
         && ((forall i :: !NewestRecord(log, i, a.key)) ==> e.entry.idempotency == None)
  }

  /** What is written once the replay guard let the action through. */
  ghost predicate Writes(
      log: seq<Event>, approvals: map<nat, Approval>, clock: nat,
      log': seq<Event>, approvals': map<nat, Approval>, t: nat, a: Action, ans: Answers)
  {
    if MayRun(approvals, clock, a, ans) then
      var authority := AuthorityOf(a, ans);
      var permit := match authority
                    case ByPolicy => Allowed(t)
                    case ByApproval(id) => Resolved(t, id, approvals[id], clock);
      approvals' == approvals && WritesRun(log + [permit], log', t, a, authority, ArgumentsOf(approvals, a, ans), ans)
    else if AsksChannel(ans) && ApprovalOf(a, ans).None? then
      && log' == log + [Requested(ans.freshId, a.toolId, a.args)]
      && var expiresAt := if ans.ttl.Some? then Some(clock + ans.ttl.value) else None;
         approvals' == approvals[ans.freshId := Approval(a.toolId, a.args, Pending, clock, expiresAt, None)]
    else
      && log' == log
      && if AsksChannel(ans) && Expires(approvals, clock, ApprovalOf(a, ans).value)
         then
           var id := ApprovalOf(a, ans).value;
           approvals' == approvals[id := approvals[id].(status := Expired)]
         else approvals' == approvals
  }

  /** A granted approval that is used too late is marked so. */
  predicate Expires(approvals: map<nat, Approval>, clock: nat, id: nat) {
    && id in approvals
    && (approvals[id].status == Granted || approvals[id].status == Modified)
    && approvals[id].expiresAt.Some? && approvals[id].expiresAt.value <= clock
  }

  lemma NewestIsFound(log: seq<Event>, key: string)
    ensures forall i :: NewestRecord(log, i, key) ==> FindByKey(log, key) == Some(log[i].entry)
    ensures FindByKey(log, key).Some? ==>
              exists i :: NewestRecord(log, i, key) && FindByKey(log, key).value == log[i].entry
  {
    var last := LastRecord(log, key);
    if last.Some? { assert NewestRecord(log, last.value, key); }
    forall i | NewestRecord(log, i, key) ensures last == Some(i) {
      assert last.Some? && i <= last.value;
    }
  }

  /** The replay guard in terms of the journal's records. */
  lemma GuardReplays(log: seq<Event>, a: Action)
    ensures Passes(FindByKey(log, a.key), a.idempotency) <==> !Replays(log, a)
    ensures FindByKey(log, a.key).Some? ==>
              (FindByKey(log, a.key).value.status == Succeeded <==> NewestSucceeded(log, a.key))
  {
    NewestIsFound(log, a.key);
  }

  lemma NewestOfSnoc(log: seq<Event>, e: Event, key: string)
    ensures FindByKey(log + [e], key)
            == if e.Recorded? && e.entry.key == key then Some(e.entry) else FindByKey(log, key)
  {
    Safety.LastRecordSnoc(log, e, key);
  }

  class ActionExecutor {
    var log: seq<Event>
    var approvals: map<nat, Approval>
    var clock: nat
    ghost var tasks: map<nat, Task>
    ghost var nextTask: nat

    ghost function View(): World
      reads this
    {
      World(log, approvals, clock, tasks, nextTask)
    }

    constructor ()
      ensures View() == START
    {
      log, approvals, clock, tasks, nextTask := [], map[], 0, map[], 0;
    }

    method RecordCommit(t: nat, key: string, status: EntryStatus, cause: Cause)
      modifies this`log
      ensures log == old(log) + [Recorded(t, CommitEntry(old(log), key, status), cause)]
    {
      log := log + [Recorded(t, CommitEntry(log, key, status), cause)];
    }

    /** `executeOne`: the log, the approvals and the outcome are those of the protocol's own steps.  A replayed outcome
        changes nothing; any other is decided by the approvals and the answers, and so is what is written. */
    method ExecuteOne(t: nat, a: Action, ans: Answers) returns (outcome: Outcome)
      requires t in tasks && tasks[t] == Task(a, Fresh) && Fits(View(), a, ans)
      modifies this
      ensures outcome.replayed <==> ans.toolKnown && Replays(old(log), a)
      ensures outcome.status == OAlreadyCommitted <==> ans.toolKnown && NewestSucceeded(old(log), a.key)
      ensures !ans.toolKnown || outcome.replayed ==>
                && (outcome.status == OFailed || outcome.status == OAlreadyCommitted)
                && log == old(log) && approvals == old(approvals)
      ensures ans.toolKnown && !outcome.replayed ==>
                && Justified(outcome, old(approvals), old(clock), a, ans)
                && Writes(old(log), old(approvals), old(clock), log, approvals, t, a, ans)
      ensures clock == old(clock)
      ensures FitsAt(old(View()), t, ans)
      ensures View() == Solo(old(View()), t, ans)
      ensures t in tasks && tasks[t].pc == Ended(outcome.status, outcome.replayed) && outcome.actionId == a.id
    {
      SoloStep(View(), t, ans);
      if !ans.toolKnown {
        tasks := tasks[t := Task(a, Ended(OFailed, false))];
        return Outcome(a.id, OFailed, false);
      }
      var found := FindByKey(log, a.key);
      GuardReplays(log, a);
      if !Passes(found, a.idempotency) {
        var status := if found.value.status.Succeeded? then OAlreadyCommitted else OFailed;
        tasks := tasks[t := Task(a, Ended(status, true))];
        return Outcome(a.id, status, true);
      }
      tasks := tasks[t := Task(a, Passed)];
      outcome := Authorize(t, a, ans);
    }

    /** The policy decision of `executeOne`. */
    method Authorize(t: nat, a: Action, ans: Answers) returns (outcome: Outcome)
      requires t in tasks && tasks[t] == Task(a, Passed) && Fits(View(), a, ans)
      modifies this
      ensures Justified(outcome, old(approvals), old(clock), a, ans) && clock == old(clock)
      ensures Writes(old(log), old(approvals), old(clock), log, approvals, t, a, ans)
      ensures FitsAt(old(View()), t, ans)
      ensures View() == Solo(old(View()), t, ans)
      ensures t in tasks && tasks[t].pc == Ended(outcome.status, outcome.replayed) && outcome.actionId == a.id
    {
      SoloStep(View(), t, ans);
      match ans.policy
      case Deny =>
        tasks := tasks[t := Task(a, Ended(ODenied, false))];
        return Outcome(a.id, ODenied, false);
      case Allow =>
        log := log + [Allowed(t)];
        tasks := tasks[t := Task(a, Authorized(ByPolicy, a.args))];
        outcome := RunAuthorized(t, a, ByPolicy, a.args, ans);
      case RequireApproval =>
        if !ans.channel {
          tasks := tasks[t := Task(a, Ended(ODenied, false))];
          return Outcome(a.id, ODenied, false);
        }
        FitsSameApprovals(View(), Goto(View(), t, Seeking), a, ans);
        tasks := tasks[t := Task(a, Seeking)];
        outcome := ExecuteWithApproval(t, a, ans);
    }

    /** The approval gate of `executeOne`. */
    method ExecuteWithApproval(t: nat, a: Action, ans: Answers) returns (outcome: Outcome)
      requires t in tasks && tasks[t] == Task(a, Seeking) && Fits(View(), a, ans) && AsksChannel(ans)
      modifies this
      ensures Justified(outcome, old(approvals), old(clock), a, ans) && clock == old(clock)
      ensures Writes(old(log), old(approvals), old(clock), log, approvals, t, a, ans)
      ensures FitsAt(old(View()), t, ans)
      ensures View() == Solo(old(View()), t, ans)
      ensures t in tasks && tasks[t].pc == Ended(outcome.status, outcome.replayed) && outcome.actionId == a.id
    {
      var id := if a.approvalRef.Some? then a.approvalRef else ans.existing;
      if id.None? {
        outcome := RequestApproval(t, a, ans);
        return;
      }
      SoloStep(View(), t, ans);
      tasks := tasks[t := Task(a, Resolving(id.value))];
      outcome := ResolveAndRun(t, a, id.value, ans);
    }

    /** `request`: nobody was asked yet. */
    method RequestApproval(t: nat, a: Action, ans: Answers) returns (outcome: Outcome)
      requires t in tasks && tasks[t] == Task(a, Seeking) && Fits(View(), a, ans) && AsksChannel(ans)
      requires ApprovalOf(a, ans).None?
      modifies this
      ensures Justified(outcome, old(approvals), old(clock), a, ans) && clock == old(clock)
      ensures Writes(old(log), old(approvals), old(clock), log, approvals, t, a, ans)
      ensures FitsAt(old(View()), t, ans)
      ensures View() == Solo(old(View()), t, ans)
      ensures t in tasks && tasks[t].pc == Ended(outcome.status, outcome.replayed) && outcome.actionId == a.id
    {
      SoloStep(View(), t, ans);
      log := log + [Requested(ans.freshId, a.toolId, a.args)];
      var expires := if ans.ttl.Some? then Some(clock + ans.ttl.value) else None;
      approvals := approvals[ans.freshId := Approval(a.toolId, a.args, Pending, clock, expires, None)];
      tasks := tasks[t := Task(a, Ended(OAwaitingApproval, false))];
      return Outcome(a.id, OAwaitingApproval, false);
    }

    /** `get` and `resolve`: run on a usable approval, else say why not. */
    method ResolveAndRun(t: nat, a: Action, id: nat, ans: Answers) returns (outcome: Outcome)
      requires t in tasks && tasks[t] == Task(a, Resolving(id)) && AsksChannel(ans) && ApprovalOf(a, ans) == Some(id)
      modifies this
      ensures Justified(outcome, old(approvals), old(clock), a, ans) && clock == old(clock)
      ensures Writes(old(log), old(approvals), old(clock), log, approvals, t, a, ans)
      ensures View() == Solo(old(View()), t, ans)
      ensures t in tasks && tasks[t].pc == Ended(outcome.status, outcome.replayed) && outcome.actionId == a.id
    {
      if !Usable(approvals, clock, a, id) {
        outcome := Refuse(t, a, id, ans);
        return;
      }
      SoloStep(View(), t, ans);
      var p := approvals[id];
      log := log + [Resolved(t, id, p, clock)];
      var args := if p.modifiedArgs.Some? then p.modifiedArgs.value else a.args;
      tasks := tasks[t := Task(a, Authorized(ByApproval(id), args))];
      outcome := RunAuthorized(t, a, ByApproval(id), args, ans);
    }

    method Refuse(t: nat, a: Action, id: nat, ans: Answers) returns (outcome: Outcome)
      requires t in tasks && tasks[t] == Task(a, Resolving(id)) && AsksChannel(ans) && ApprovalOf(a, ans) == Some(id)
      requires !Usable(approvals, clock, a, id)
      modifies this
      ensures Justified(outcome, old(approvals), old(clock), a, ans) && clock == old(clock)
      ensures Writes(old(log), old(approvals), old(clock), log, approvals, t, a, ans)
      ensures View() == Solo(old(View()), t, ans)
      ensures t in tasks && tasks[t].pc == Ended(outcome.status, outcome.replayed) && outcome.actionId == a.id
    {
      SoloStep(View(), t, ans);
      outcome := Outcome(a.id, if IsPending(approvals, id) then OAwaitingApproval else ODenied, false);
      if Expires(approvals, clock, id) {
        approvals := approvals[id := approvals[id].(status := Expired)];
      }
      tasks := tasks[t := Task(a, Ended(outcome.status, false))];
    }

    /** `runAuthorized`: journal the intent, run the tool, commit the result, call the hook. */
    method RunAuthorized(t: nat, a: Action, authority: Authority, args: string, ans: Answers) returns (outcome: Outcome)
      requires t in tasks && tasks[t] == Task(a, Authorized(authority, args))
      modifies this
      ensures outcome == Outcome(a.id, if ToolSucceeds(ans) then OSucceeded else OFailed, false)
      ensures WritesRun(old(log), log, t, a, authority, args, ans) && approvals == old(approvals) && clock == old(clock)
      ensures View() == Solo(old(View()), t, ans)
      ensures t in tasks && tasks[t].pc == Ended(outcome.status, outcome.replayed) && outcome.actionId == a.id
    {
      SoloStep(View(), t, ans);
      outcome := Outcome(a.id, OFailed, false);
      if !ans.parses {
        NewestIsFound(log, a.key);
        RecordCommit(t, a.key, Failed, Unparsable);
        tasks := tasks[t := Task(a, Ended(OFailed, false))];
        return;
      }
      NewestOfSnoc(log, Recorded(t, Entry(a.key, Executing, Some(a.idempotency)), Intent), a.key);
      log := log + [Recorded(t, Entry(a.key, Executing, Some(a.idempotency)), Intent)];
      tasks := tasks[t := Task(a, Intended(authority, args))];
      outcome := RunTool(t, a, authority, args, ans);
    }

    method RunTool(t: nat, a: Action, authority: Authority, args: string, ans: Answers) returns (outcome: Outcome)
      requires t in tasks && tasks[t] == Task(a, Intended(authority, args)) && ans.parses
      requires FindByKey(log, a.key) == Some(Entry(a.key, Executing, Some(a.idempotency)))
      modifies this
      ensures outcome == Outcome(a.id, if ToolSucceeds(ans) then OSucceeded else OFailed, false)
      ensures log == old(log) + AfterIntent(t, a, authority, args, ans)
      ensures approvals == old(approvals) && clock == old(clock)
      ensures View() == Solo(old(View()), t, ans)
      ensures t in tasks && tasks[t].pc == Ended(outcome.status, outcome.replayed) && outcome.actionId == a.id
    {
      SoloStep(View(), t, ans);
      outcome := Outcome(a.id, OFailed, false);
      if ans.aborted {
        RecordCommit(t, a.key, Failed, Aborted);
        tasks := tasks[t := Task(a, Ended(OFailed, false))];
        return;
      }
      NewestOfSnoc(log, Invoked(t, a, authority, args), a.key);
      log := log + [Invoked(t, a, authority, args)];
      tasks := tasks[t := Task(a, Running(authority, args))];
      outcome := CommitResult(t, a, ans);
    }

    method CommitResult(t: nat, a: Action, ans: Answers) returns (outcome: Outcome)
      requires t in tasks && tasks[t].action == a && tasks[t].pc.Running? && ans.parses && !ans.aborted
      requires FindByKey(log, a.key) == Some(Entry(a.key, Executing, Some(a.idempotency)))
      modifies this
      ensures outcome == Outcome(a.id, if ToolSucceeds(ans) then OSucceeded else OFailed, false)
      ensures log == old(log) + AfterInvocation(t, a, ans)
      ensures approvals == old(approvals) && clock == old(clock)
      ensures View() == Solo(old(View()), t, ans)
      ensures t in tasks && tasks[t].pc == Ended(outcome.status, outcome.replayed) && outcome.actionId == a.id
    {
      SoloStep(View(), t, ans);
      outcome := Outcome(a.id, OFailed, false);
      if ans.toolThrew {
        RecordCommit(t, a.key, Failed, ToolResult);
        tasks := tasks[t := Task(a, Ended(OFailed, false))];
        return;
      }
      NewestOfSnoc(log, ResultRecord(t, a, if ans.success then Succeeded else Failed, ToolResult), a.key);
      RecordCommit(t, a.key, if ans.success then Succeeded else Failed, ToolResult);
      tasks := tasks[t := Task(a, Committed(ans.success))];
      outcome := AfterCommit(t, a, ans);
    }

    /** The invocation hook: its exception is recorded as a failure after the commit. */
    method AfterCommit(t: nat, a: Action, ans: Answers) returns (outcome: Outcome)
      requires t in tasks && tasks[t] == Task(a, Committed(ans.success))
      requires FindByKey(log, a.key).Some? && FindByKey(log, a.key).value.idempotency == Some(a.idempotency)
      modifies this
      ensures outcome == Outcome(a.id, if !ans.hookThrew && ans.success then OSucceeded else OFailed, false)
      ensures log == old(log) + if ans.hookThrew then [ResultRecord(t, a, Failed, HookThrew)] else []
      ensures approvals == old(approvals) && clock == old(clock)
      ensures View() == Solo(old(View()), t, ans)
      ensures t in tasks && tasks[t].pc == Ended(outcome.status, outcome.replayed) && outcome.actionId == a.id
    {
      SoloStep(View(), t, ans);
      if ans.hookThrew {
        RecordCommit(t, a.key, Failed, HookThrew);
      }
      outcome := Outcome(a.id, if !ans.hookThrew && ans.success then OSucceeded else OFailed, false);
      tasks := tasks[t := Task(a, Ended(outcome.status, false))];
    }
  }
}
