/** The agent loop: how often it can turn, and what its step and recovery budgets really bound. */
module AgentLoop {
  import opened Wrappers

  datatype Config = Config(maxSteps: Option<int>, maxRecoveryAttempts: Option<int>, recoveryEnabled: bool,
      maxNoProgress: nat)

  /** What a recovery strategy does to the run. */
  datatype Strategy = Terminate | Retry(succeeds: bool) | OtherStrategy(stops: bool)

  datatype Verdict = GiveUp | AskHuman | Replan

  /** What recovery makes of a model call that failed before any action could be authorized. */
  datatype Rescue = Abandon | Ask | Restore(found: bool) | CallAgain

  /** What the world answers in one turn. */
  datatype Answer =
    | OtherBudgetExceeded
    | Interrupted
    | PlanningStops
    | DecisionCancelled
    | DecisionFails(rescue: Rescue)
    | FinishedVerified
    | FinishedUnverified(verdict: Verdict)
    | Acts(signature: string, recordStops: bool, awaitingApproval: nat, denied: nat, failed: nat,
        strategies: nat -> Strategy)

  datatype Stop =
    | BudgetExceeded | WasInterrupted | StepLimit | StoppedPlanning | DecisionFailed | Completed | VerificationFailed
    | AwaitingApproval | StoppedRecording | RepeatedDenials | RecoveryStopped | NoProgress

  /** The durable usage and the session's own counters; `acted` holds the signatures of the action sets executed. */
  datatype State = State(
    steps: nat, recoveryCount: nat, recoveryAttempts: nat, denials: nat, noProgress: nat, acted: seq<string>)

  datatype Usage = Usage(steps: nat, recoveryCount: nat)

  /** A limit of zero means no allowance, an absent one no bound. */
  predicate Exceeded(limit: Option<int>, used: nat) {
    limit.Some? && if limit.value <= 0 then used > 0 else used >= limit.value
  }

  function StepLimitOf(c: Config): int {
    if c.maxSteps.Some? then c.maxSteps.value else 100
  }

  function RecoveryLimitOf(c: Config): int {
    if c.maxRecoveryAttempts.Some? then c.maxRecoveryAttempts.value else 5
  }

  /** A failed model call is retried up to a limit with its own default. */
  function CallLimitOf(c: Config): int {
    if c.maxRecoveryAttempts.Some? then c.maxRecoveryAttempts.value else 3
  }

  function Max(a: int, b: int): int {
    if a < b then b else a
  }

  function NewSession(u: Usage): State {
    State(u.steps, u.recoveryCount, 0, 0, 0, [])
  }

  function CountRecovery(s: State): State {
    s.(recoveryAttempts := s.recoveryAttempts + 1, recoveryCount := s.recoveryCount + 1)
  }

  /** `recover` and `applyRecovery`: a failed retry recovers again until the attempts reach the limit. */
  function Recover(c: Config, s: State, strategies: nat -> Strategy): (State, Option<Stop>)
    decreases Max(0, RecoveryLimitOf(c) - s.recoveryAttempts)
  {
    if !c.recoveryEnabled then (s, None)
    else
      var counted := CountRecovery(s);
      match strategies(s.recoveryAttempts)
      case Terminate => (counted, Some(RecoveryStopped))
      case OtherStrategy(stops) => (counted, if stops then Some(RecoveryStopped) else None)
      case Retry(succeeds) =>
        if succeeds then (counted, None)
        else if counted.recoveryAttempts >= RecoveryLimitOf(c) then (counted, Some(RecoveryStopped))
        else Recover(c, counted, strategies)
  }

  /** `recoverFromDecisionFailure`: one recovery is counted, then the strategy decides. */
  function Decide(c: Config, s: State, rescue: Rescue): (State, Option<Stop>) {
    var counted := CountRecovery(s);
    match rescue
    case Abandon => (counted, Some(DecisionFailed))
    case Ask => (counted, Some(AwaitingApproval))
    case Restore(found) => (counted, if found then None else Some(DecisionFailed))
    case CallAgain => (counted, if counted.recoveryAttempts < CallLimitOf(c) then None else Some(DecisionFailed))
  }

  function Finish(c: Config, s: State, verdict: Verdict): (State, Option<Stop>) {
    var counted := CountRecovery(s);
    if verdict == GiveUp || counted.recoveryAttempts > RecoveryLimitOf(c) then (counted, Some(VerificationFailed))
    else if verdict == AskHuman then (counted, Some(AwaitingApproval))
    else (counted, None)
  }

  /** Executing one more action set: an identical one is no progress. */
  function Acted(s: State, signature: string): State {
    var repeated := s.acted != [] && s.acted[|s.acted| - 1] == signature;
    s.(noProgress := if repeated then s.noProgress + 1 else 0, acted := s.acted + [signature])
  }

  function Act(c: Config, s: State, a: Answer): (State, Option<Stop>)
    requires a.Acts?
  {
    var acted := Acted(s, a.signature);
    if a.recordStops then (acted, Some(StoppedRecording))
    else if a.awaitingApproval > 0 then (acted, Some(AwaitingApproval))
    else
      var denied := acted.(denials := acted.denials + a.denied);
      if a.denied > 0 && denied.denials >= 3 then (denied, Some(RepeatedDenials))
      else
        var (recovered, stop) := if a.failed > 0 then Recover(c, denied, a.strategies) else (denied, None);
        if stop.Some? then (recovered, stop)
        else (recovered, if recovered.noProgress >= c.maxNoProgress then Some(NoProgress) else None)
  }

  /** One turn of the loop; `iteration` counts from one. */
  function Turn(c: Config, s: State, iteration: nat, a: Answer): (State, Option<Stop>) {
    if Exceeded(c.maxSteps, s.steps) || Exceeded(c.maxRecoveryAttempts, s.recoveryCount) || a.OtherBudgetExceeded?
    then (s, Some(BudgetExceeded))
    else if a.Interrupted? then (s, Some(WasInterrupted))
    else if iteration > StepLimitOf(c) then (s, Some(StepLimit))
    else
      match a
      case PlanningStops => (s, Some(StoppedPlanning))
      case DecisionCancelled => (s, Some(WasInterrupted))
      case DecisionFails(rescue) => Decide(c, s, rescue)
      case FinishedVerified => (s.(steps := s.steps + 1), Some(Completed))
      case FinishedUnverified(verdict) => Finish(c, s.(steps := s.steps + 1), verdict)
      case Acts(_, _, _, _, _, _) => Act(c, s.(steps := s.steps + 1), a)
  }

  /** A limit is used up from its value on, a limit below one from the first use on. */
  predicate UsedUp(limit: Option<int>, used: nat) {
    limit.Some? && used >= 1 && used >= limit.value
  }

  function OrElse(limit: Option<int>, byDefault: int): int {
    match limit
    case Some(n) => n
    case None => byDefault
  }

  predicate OverBudget(c: Config, s: State, a: Answer) {
    UsedUp(c.maxSteps, s.steps) || UsedUp(c.maxRecoveryAttempts, s.recoveryCount) || a == OtherBudgetExceeded
  }

  /** The turn gets as far as asking for the next decision. */
  predicate Open(c: Config, s: State, iteration: nat, a: Answer) {
    !OverBudget(c, s, a) && a != Interrupted && iteration <= OrElse(c.maxSteps, 100)
  }

  predicate Denies(s: State, a: Answer) {
    a.Acts? && a.denied >= 1 && s.denials + a.denied >= 3
  }

  /** The actions were executed, none waits for approval, and there is no third denial. */
  predicate Executed(c: Config, s: State, iteration: nat, a: Answer) {
    && Open(c, s, iteration, a) && a.Acts?
    && !a.recordStops && a.awaitingApproval == 0 && !Denies(s, a)
  }

  predicate TriesAgain(c: Config, strategies: nat -> Strategy, attempt: nat) {
    strategies(attempt) == Retry(false) && attempt + 1 < OrElse(c.maxRecoveryAttempts, 5)
  }

  /** The attempt that ends a recovery: the first one that is not a failed retry below the limit. */
  predicate LastAttempt(c: Config, first: nat, strategies: nat -> Strategy, attempt: nat) {
    && first <= attempt && !TriesAgain(c, strategies, attempt)
    && forall i | first <= i < attempt :: TriesAgain(c, strategies, i)
  }

  predicate Stops(strategy: Strategy) {
    strategy == Terminate || strategy == OtherStrategy(true) || strategy == Retry(false)
  }

  predicate Recovers(c: Config, s: State, iteration: nat, a: Answer) {
    Executed(c, s, iteration, a) && a.failed > 0 && c.recoveryEnabled
  }

  /** The recovery ends with an attempt that stops the run or with a retry that failed. */
  ghost predicate GivesUp(c: Config, s: State, a: Answer)
    requires a.Acts?
  {
    exists k: nat :: LastAttempt(c, s.recoveryAttempts, a.strategies, k) && Stops(a.strategies(k))
  }

  /** The same actions once more, often enough in a row. */
  predicate GoesRound(c: Config, s: State, a: Answer)
    requires a.Acts?
  {
    || c.maxNoProgress == 0
    || (|s.acted| > 0 && s.acted[|s.acted| - 1] == a.signature && s.noProgress + 1 >= c.maxNoProgress)
  }

  /** Which stop a turn yields, for every stop and for going on, read off the answer and the counters before it. */
  ghost predicate StopLaw(c: Config, s: State, iteration: nat, a: Answer, stop: Option<Stop>) {
    var open := Open(c, s, iteration, a);
    var executed := Executed(c, s, iteration, a);
    var recovery, attempt := OrElse(c.maxRecoveryAttempts, 5), s.recoveryAttempts + 1;
    && (stop == Some(BudgetExceeded) <==> OverBudget(c, s, a))
    && (stop == Some(WasInterrupted) <==>
          !OverBudget(c, s, a) && (a == Interrupted || (a == DecisionCancelled && open)))
    && (stop == Some(StepLimit) <==>
          !OverBudget(c, s, a) && a != Interrupted && iteration > OrElse(c.maxSteps, 100))
    && (stop == Some(StoppedPlanning) <==> open && a == PlanningStops)
    && (stop == Some(Completed) <==> open && a == FinishedVerified)
    && (stop == Some(VerificationFailed) <==>
          open && a.FinishedUnverified? && (a.verdict == GiveUp || attempt > recovery))
    && (stop == Some(DecisionFailed) <==>
          && open && a.DecisionFails?
          && (a.rescue == Abandon || a.rescue == Restore(false)
              || (a.rescue == CallAgain && attempt >= OrElse(c.maxRecoveryAttempts, 3))))
    && (stop == Some(AwaitingApproval) <==>
          open && (a == DecisionFails(Ask)
                   || (a == FinishedUnverified(AskHuman) && attempt <= recovery)
                   || (a.Acts? && !a.recordStops && a.awaitingApproval > 0)))
    && (stop == Some(StoppedRecording) <==> open && a.Acts? && a.recordStops)
    && (stop == Some(RepeatedDenials) <==>
          open && a.Acts? && !a.recordStops && a.awaitingApproval == 0 && Denies(s, a))
    && (stop == Some(RecoveryStopped) <==> Recovers(c, s, iteration, a) && GivesUp(c, s, a))
    && (stop == Some(NoProgress) <==>
          executed && GoesRound(c, s, a) && !(Recovers(c, s, iteration, a) && GivesUp(c, s, a)))
    && (stop == None <==>
          open && (a == DecisionFails(Restore(true))
                   || (a == DecisionFails(CallAgain) && attempt < OrElse(c.maxRecoveryAttempts, 3))
                   || (a == FinishedUnverified(Replan) && attempt <= recovery)
                   || (executed && !GoesRound(c, s, a) && !(Recovers(c, s, iteration, a) && GivesUp(c, s, a)))))
  }

  /** What a turn counts: a step for every finish or action set, a recovery for every failure it recovers from. */
  ghost predicate CountLaw(c: Config, s: State, iteration: nat, a: Answer, t: State) {
    var open := Open(c, s, iteration, a);
    && t.steps == s.steps + (if open && (a.Acts? || a.FinishedVerified? || a.FinishedUnverified?) then 1 else 0)
    && t.recoveryCount - s.recoveryCount == t.recoveryAttempts - s.recoveryAttempts
    && (if Recovers(c, s, iteration, a)
        then exists k: nat :: LastAttempt(c, s.recoveryAttempts, a.strategies, k) && t.recoveryAttempts == k + 1
        else t.recoveryAttempts == s.recoveryAttempts
               + (if open && (a.DecisionFails? || a.FinishedUnverified?) then 1 else 0))
    && (if open && a.Acts?
        then
          && t.acted == s.acted + [a.signature]
          && (t.noProgress == if |s.acted| > 0 && s.acted[|s.acted| - 1] == a.signature then s.noProgress + 1 else 0)
          && (t.denials == s.denials + if !a.recordStops && a.awaitingApproval == 0 then a.denied else 0)
        else t.acted == s.acted && t.noProgress == s.noProgress && t.denials == s.denials)
  }

  /** The recursion ends at the first attempt that is not a failed retry below the limit, and that attempt decides. */
  lemma {:induction false} RecoveryEnds(c: Config, s: State, strategies: nat -> Strategy) returns (k: nat)
    requires c.recoveryEnabled
    ensures LastAttempt(c, s.recoveryAttempts, strategies, k)
    ensures Recover(c, s, strategies).0
            == s.(recoveryAttempts := k + 1, recoveryCount := s.recoveryCount + k + 1 - s.recoveryAttempts)
    ensures Recover(c, s, strategies).1 == if Stops(strategies(k)) then Some(RecoveryStopped) else None
    decreases Max(0, RecoveryLimitOf(c) - s.recoveryAttempts)
  {
    if TriesAgain(c, strategies, s.recoveryAttempts) {
      k := RecoveryEnds(c, CountRecovery(s), strategies);
    } else {
      k := s.recoveryAttempts;
    }
  }

  lemma RecoveryDecides(c: Config, s: State, a: Answer, from: State)
    requires a.Acts? && c.recoveryEnabled && from.recoveryAttempts == s.recoveryAttempts
    ensures Recover(c, from, a.strategies).1 == if GivesUp(c, s, a) then Some(RecoveryStopped) else None
  {
    var k := RecoveryEnds(c, from, a.strategies);
    assert forall j: nat | LastAttempt(c, s.recoveryAttempts, a.strategies, j) :: j == k;
  }

  lemma ActStops(c: Config, s: State, iteration: nat, a: Answer)
    requires Open(c, s, iteration, a) && a.Acts?
    ensures StopLaw(c, s, iteration, a, Act(c, s.(steps := s.steps + 1), a).1)
  {
    var acted := Acted(s.(steps := s.steps + 1), a.signature);
    var denied := acted.(denials := acted.denials + a.denied);
    assert acted.noProgress >= c.maxNoProgress <==> GoesRound(c, s, a);
    if c.recoveryEnabled {
      RecoveryDecides(c, s, a, denied);
    }
    RecoveryDepth(c, denied, a.strategies);
  }

  lemma ActCounts(c: Config, s: State, iteration: nat, a: Answer)
    requires Open(c, s, iteration, a) && a.Acts?
    ensures CountLaw(c, s, iteration, a, Act(c, s.(steps := s.steps + 1), a).0)
  {
    var acted := Acted(s.(steps := s.steps + 1), a.signature);
    if c.recoveryEnabled {
      var k := RecoveryEnds(c, acted.(denials := acted.denials + a.denied), a.strategies);
    }
  }

  lemma ClosedTurn(c: Config, s: State, iteration: nat, a: Answer)
    requires !Open(c, s, iteration, a)
    ensures Turn(c, s, iteration, a).0 == s && StopLaw(c, s, iteration, a, Turn(c, s, iteration, a).1)
  {
  }

  lemma TurnWithoutActions(c: Config, s: State, iteration: nat, a: Answer)
    requires Open(c, s, iteration, a) && !a.Acts?
    ensures StopLaw(c, s, iteration, a, Turn(c, s, iteration, a).1)
  {
  }

  lemma TurnStops(c: Config, s: State, iteration: nat, a: Answer)
    ensures StopLaw(c, s, iteration, a, Turn(c, s, iteration, a).1)
  {
    if !Open(c, s, iteration, a) {
      ClosedTurn(c, s, iteration, a);
    } else if a.Acts? {
      ActStops(c, s, iteration, a);
    } else {
      TurnWithoutActions(c, s, iteration, a);
    }
  }

  lemma TurnCounts(c: Config, s: State, iteration: nat, a: Answer)
    ensures CountLaw(c, s, iteration, a, Turn(c, s, iteration, a).0)
  {
    if Open(c, s, iteration, a) && a.Acts? { ActCounts(c, s, iteration, a); }
  }

  /** Every turn of the course goes on to the next, counting as it must, and the last one yields the stop. */
  ghost predicate IsCourse(c: Config, answers: nat -> Answer, course: seq<State>, stop: Option<Stop>) {
    && course != [] && (|course| == 1 ==> stop == None)
    && (forall i | 0 <= i < |course| - 1 :: CountLaw(c, course[i], i + 1, answers(i), course[i + 1]))
    && (forall i | 0 <= i < |course| - 2 :: StopLaw(c, course[i], i + 1, answers(i), None))
    && (|course| >= 2 ==> StopLaw(c, course[|course| - 2], |course| - 1, answers(|course| - 2), stop))
  }

  ghost predicate Comes(
      c: Config, answers: nat -> Answer, start: State, iterations: nat, end: State, stop: Option<Stop>) {
    exists course :: |course| == iterations + 1 && course[0] == start && course[iterations] == end
                     && IsCourse(c, answers, course, stop)
  }

  lemma CourseGoesOn(c: Config, answers: nat -> Answer, course: seq<State>, t: State, stop: Option<Stop>)
    requires IsCourse(c, answers, course, None)
    requires StopLaw(c, course[|course| - 1], |course|, answers(|course| - 1), stop)
    requires CountLaw(c, course[|course| - 1], |course|, answers(|course| - 1), t)
    ensures IsCourse(c, answers, course + [t], stop)
  {
    var longer := course + [t];
    forall i | 0 <= i < |longer| - 1 ensures CountLaw(c, longer[i], i + 1, answers(i), longer[i + 1]) {
      if i < |course| - 1 { assert longer[i] == course[i] && longer[i + 1] == course[i + 1]; }
    }
    forall i | 0 <= i < |longer| - 2 ensures StopLaw(c, longer[i], i + 1, answers(i), None) {
      assert longer[i] == course[i];
    }
  }

  lemma OneTurnFurther(c: Config, answers: nat -> Answer, start: State, n: nat, s: State, t: State, stop: Option<Stop>)
    requires Comes(c, answers, start, n, s, None)
    requires StopLaw(c, s, n + 1, answers(n), stop) && CountLaw(c, s, n + 1, answers(n), t)
    ensures Comes(c, answers, start, n + 1, t, stop)
  {
    var course :| |course| == n + 1 && course[0] == start && course[n] == s && IsCourse(c, answers, course, None);
    CourseGoesOn(c, answers, course, t, stop);
    assert (course + [t])[0] == start && (course + [t])[n + 1] == t;
  }

  datatype Progress = Progress(state: State, iterations: nat, stop: Option<Stop>)

  /** The loop over the answers so far. */
  function Loop(c: Config, start: State, answers: seq<Answer>): Progress {
    if answers == [] then Progress(start, 0, None)
    else
      var p := Loop(c, start, answers[..|answers| - 1]);
      if p.stop.Some? then p
      else
        var (s, stop) := Turn(c, p.state, p.iterations + 1, answers[|answers| - 1]);
        Progress(s, p.iterations + 1, stop)
  }

  /** The recursion is as deep as the recoveries counted, at most the attempts that were left and never
      less than one. */
  lemma {:induction false} RecoveryDepth(c: Config, s: State, strategies: nat -> Strategy)
    ensures var t := Recover(c, s, strategies).0;
            && t.recoveryCount - s.recoveryCount == t.recoveryAttempts - s.recoveryAttempts
            && t == s.(recoveryAttempts := t.recoveryAttempts, recoveryCount := t.recoveryCount)
            && (if c.recoveryEnabled
                then 1 <= t.recoveryAttempts - s.recoveryAttempts <= Max(1, RecoveryLimitOf(c) - s.recoveryAttempts)
                else t == s)
    decreases Max(0, RecoveryLimitOf(c) - s.recoveryAttempts)
  {
    if c.recoveryEnabled && strategies(s.recoveryAttempts) == Retry(false)
        && s.recoveryAttempts + 1 < RecoveryLimitOf(c) {
      RecoveryDepth(c, CountRecovery(s), strategies);
    }
  }

  /** What one turn adds: at most one step, and recoveries within the attempts left. */
  lemma TurnAdds(c: Config, s: State, iteration: nat, a: Answer)
    ensures var t := Turn(c, s, iteration, a).0;
            && s.steps <= t.steps <= s.steps + 1
            && t.recoveryCount - s.recoveryCount == t.recoveryAttempts - s.recoveryAttempts
            && s.recoveryAttempts <= t.recoveryAttempts <= Max(s.recoveryAttempts + 1, RecoveryLimitOf(c))
            && (t != s ==>
                  && !Exceeded(c.maxSteps, s.steps) && !Exceeded(c.maxRecoveryAttempts, s.recoveryCount)
                  && iteration <= StepLimitOf(c))
  {
    if a.Acts? {
      var acted := Acted(s.(steps := s.steps + 1), a.signature);
      RecoveryDepth(c, acted.(denials := acted.denials + a.denied), a.strategies);
    }
  }

  /** However the model answers, the loop turns at most `maxSteps + 1` times; while it runs, at most `maxSteps`. */
  lemma {:induction false} TurnsAreBounded(c: Config, start: State, answers: seq<Answer>)
    ensures var p := Loop(c, start, answers);
            && p.iterations <= Max(0, StepLimitOf(c)) + 1
            && (p.stop.None? ==> p.iterations == |answers| <= Max(0, StepLimitOf(c)))
  {
    if answers != [] { TurnsAreBounded(c, start, answers[..|answers| - 1]); }
  }

  /** Enough answers always bring the loop to a stop. */
  lemma LoopStops(c: Config, start: State, answers: seq<Answer>)
    requires |answers| > Max(0, StepLimitOf(c))
    ensures Loop(c, start, answers).stop.Some?
  {
    TurnsAreBounded(c, start, answers);
  }

  /** Within a session: the steps stay within the limit, and the recoveries within the limit counted from the
      session's own start, because a new session forgets how often the run has recovered. */
  ghost predicate WithinSession(c: Config, u: Usage, s: State) {
    && u.steps <= s.steps && u.recoveryCount <= s.recoveryCount
    && (c.maxSteps.Some? ==> s.steps <= Max(u.steps, c.maxSteps.value))
    && s.recoveryCount == u.recoveryCount + s.recoveryAttempts
    && (c.maxRecoveryAttempts.Some? ==>
          || s.recoveryAttempts == 0
          || (u.recoveryCount < Max(1, c.maxRecoveryAttempts.value)
              && s.recoveryAttempts <= Max(1, c.maxRecoveryAttempts.value)))
  }

  lemma TurnKeepsWithin(c: Config, u: Usage, s: State, iteration: nat, a: Answer)
    requires WithinSession(c, u, s) && iteration >= 1
    ensures WithinSession(c, u, Turn(c, s, iteration, a).0)
  {
    TurnAdds(c, s, iteration, a);
  }

  lemma {:induction false} LoopKeepsWithin(c: Config, u: Usage, answers: seq<Answer>)
    ensures WithinSession(c, u, Loop(c, NewSession(u), answers).state)
  {
    if answers != [] {
      LoopKeepsWithin(c, u, answers[..|answers| - 1]);
      var p := Loop(c, NewSession(u), answers[..|answers| - 1]);
      if p.stop.None? { TurnKeepsWithin(c, u, p.state, p.iterations + 1, answers[|answers| - 1]); }
    }
  }

  /** One resumption: it reloads some usage recorded earlier, runs on some answers, and records usage on the way. */
  datatype Episode = Episode(from: nat, answers: seq<Answer>, recorded: Usage)

  ghost predicate Legal(c: Config, history: seq<Usage>, e: Episode)
    requires e.from < |history|
  {
    var end := Loop(c, NewSession(history[e.from]), e.answers).state;
    && history[e.from].steps <= e.recorded.steps <= end.steps
    && history[e.from].recoveryCount <= e.recorded.recoveryCount <= end.recoveryCount
  }

  /** Everything ever recorded about a run's usage, over any number of resumptions and crashes. */
  ghost predicate Recorded(c: Config, history: seq<Usage>, episodes: seq<Episode>)
    decreases |episodes|
  {
    if episodes == [] then history == [Usage(0, 0)]
    else
      var last := episodes[|episodes| - 1];
      && |history| >= 2
      && Recorded(c, history[..|history| - 1], episodes[..|episodes| - 1])
      && last.from < |history| - 1
      && Legal(c, history[..|history| - 1], last)
      && history[|history| - 1] == last.recorded
  }

  /** What the limits bound over all resumptions: the steps exactly, the recoveries only up to twice the
      limit less one. */
  ghost predicate WithinLimits(c: Config, u: Usage) {
    && (c.maxSteps.Some? ==> u.steps <= Max(0, c.maxSteps.value))
    && (c.maxRecoveryAttempts.Some? ==> u.recoveryCount <= Max(1, 2 * c.maxRecoveryAttempts.value - 1))
  }

  lemma {:induction false} LimitsHoldAcrossResumptions(c: Config, history: seq<Usage>, episodes: seq<Episode>)
    requires Recorded(c, history, episodes)
    ensures forall i | 0 <= i < |history| :: WithinLimits(c, history[i])
    decreases |episodes|
  {
    if episodes != [] {
      var earlier, last := history[..|history| - 1], episodes[|episodes| - 1];
      LimitsHoldAcrossResumptions(c, earlier, episodes[..|episodes| - 1]);
      LoopKeepsWithin(c, earlier[last.from], last.answers);
      assert WithinLimits(c, earlier[last.from]);
      assert WithinLimits(c, last.recorded);
      assert forall i | 0 <= i < |earlier| :: history[i] == earlier[i];
    }
  }

  // ------------------------------------------------------------------ when the recovery limit holds

  predicate StepLeft(c: Config, u: Usage) {
    c.maxSteps.Some? ==> u.steps < c.maxSteps.value
  }

  /** The usage a session may not be resumed with: some of the recovery budget is spent, some is left, and a
      step is left in which a recovery can start over. */
  predicate CanOvershoot(c: Config, u: Usage)
    requires c.maxRecoveryAttempts.Some?
  {
    c.recoveryEnabled && StepLeft(c, u) && 1 <= u.recoveryCount < c.maxRecoveryAttempts.value
  }

  predicate InLimit(c: Config, recoveryCount: nat)
    requires c.maxRecoveryAttempts.Some?
  {
    recoveryCount <= Max(1, c.maxRecoveryAttempts.value)
  }

  /** A session that starts with an exceeded budget, or with no step left, changes nothing. */
  lemma {:induction false} ExhaustedStaysPut(c: Config, u: Usage, answers: seq<Answer>)
    requires !StepLeft(c, u) || Exceeded(c.maxRecoveryAttempts, u.recoveryCount)
    ensures Loop(c, NewSession(u), answers).state == NewSession(u)
    ensures answers != [] ==> Loop(c, NewSession(u), answers).stop.Some?
  {
    if answers != [] {
      ExhaustedStaysPut(c, u, answers[..|answers| - 1]);
    }
  }

  /** Without recovery of actions, a turn counts one recovery at most, and only within the limit. */
  lemma {:induction false} DisabledKeepsLimit(c: Config, u: Usage, answers: seq<Answer>)
    requires c.maxRecoveryAttempts.Some? && !c.recoveryEnabled && InLimit(c, u.recoveryCount)
    ensures InLimit(c, Loop(c, NewSession(u), answers).state.recoveryCount)
  {
    if answers != [] {
      DisabledKeepsLimit(c, u, answers[..|answers| - 1]);
      var p := Loop(c, NewSession(u), answers[..|answers| - 1]);
      if p.stop.None? { DisabledTurn(c, p.state, p.iterations + 1, answers[|answers| - 1]); }
    }
  }

  lemma DisabledTurn(c: Config, s: State, iteration: nat, a: Answer)
    requires !c.recoveryEnabled
    ensures Turn(c, s, iteration, a).0.recoveryCount
            <= if Exceeded(c.maxRecoveryAttempts, s.recoveryCount) then s.recoveryCount else s.recoveryCount + 1
  {
  }

  lemma SessionKeepsLimit(c: Config, u: Usage, answers: seq<Answer>)
    requires c.maxRecoveryAttempts.Some? && InLimit(c, u.recoveryCount) && !CanOvershoot(c, u)
    ensures InLimit(c, Loop(c, NewSession(u), answers).state.recoveryCount)
  {
    if !c.recoveryEnabled {
      DisabledKeepsLimit(c, u, answers);
    } else if u.recoveryCount == 0 {
      LoopKeepsWithin(c, u, answers);
    } else {
      ExhaustedStaysPut(c, u, answers);
    }
  }

  function FailingAction(strategies: nat -> Strategy): Answer {
    Acts("write", false, 0, 0, 1, strategies)
  }

  /** A recovery whose retries all fail uses up all the attempts a session is allowed. */
  lemma {:induction false} RetriesUseUpAttempts(c: Config, s: State, strategies: nat -> Strategy)
    requires c.recoveryEnabled && s.recoveryAttempts < RecoveryLimitOf(c) && forall n :: strategies(n) == Retry(false)
    ensures var left := RecoveryLimitOf(c) - s.recoveryAttempts;
            Recover(c, s, strategies)
            == (s.(recoveryAttempts := RecoveryLimitOf(c), recoveryCount := s.recoveryCount + left),
                Some(RecoveryStopped))
    decreases RecoveryLimitOf(c) - s.recoveryAttempts
  {
    if s.recoveryAttempts + 1 < RecoveryLimitOf(c) {
      RetriesUseUpAttempts(c, CountRecovery(s), strategies);
    }
  }

  /** From a usage that can overshoot, one turn does: the session counts its attempts from zero again. */
  lemma Overshoot(c: Config, u: Usage) returns (a: Answer)
    requires c.maxRecoveryAttempts.Some? && CanOvershoot(c, u)
    ensures var end := Loop(c, NewSession(u), [a]).state;
            end.steps == u.steps + 1 && end.recoveryCount == u.recoveryCount + c.maxRecoveryAttempts.value
  {
    var retries := (n: nat) => Retry(false);
    a := FailingAction(retries);
    var s := NewSession(u).(steps := u.steps + 1);
    OneTurn(c, NewSession(u), a);
    RetriesUseUpAttempts(c, Acted(s, "write"), retries);
    assert Act(c, s, a) == Recover(c, Acted(s, "write"), retries);
  }

  ghost predicate SessionInLimit(c: Config, u: Usage, answers: seq<Answer>)
    requires c.maxRecoveryAttempts.Some?
  {
    InLimit(c, Loop(c, NewSession(u), answers).state.recoveryCount)
  }

  /** When a session keeps its run's recoveries within the limit, whatever the world answers: exactly when it
      starts within the limit and not with a part of the budget spent, a part left, and a step to spend it in. */
  lemma RecoveryLimitHoldsIff(c: Config, u: Usage)
    requires c.maxRecoveryAttempts.Some?
    ensures (forall answers :: SessionInLimit(c, u, answers)) <==> InLimit(c, u.recoveryCount) && !CanOvershoot(c, u)
  {
    if InLimit(c, u.recoveryCount) && !CanOvershoot(c, u) {
      forall answers ensures SessionInLimit(c, u, answers) {
        SessionKeepsLimit(c, u, answers);
      }
    } else if CanOvershoot(c, u) {
      var a := Overshoot(c, u);
      assert !SessionInLimit(c, u, [a]);
    } else {
      assert !SessionInLimit(c, u, []);
    }
  }

  /** The configurations under which resuming a run may take it over its limit. */
  predicate Overshootable(c: Config)
    requires c.maxRecoveryAttempts.Some?
  {
    c.recoveryEnabled && c.maxRecoveryAttempts.value >= 2 && StepLimitOf(c) >= 1
  }

  predicate AllInLimit(c: Config, history: seq<Usage>)
    requires c.maxRecoveryAttempts.Some?
  {
    forall i | 0 <= i < |history| :: InLimit(c, history[i].recoveryCount)
  }

  ghost predicate RecordedInLimit(c: Config, history: seq<Usage>, episodes: seq<Episode>)
    requires c.maxRecoveryAttempts.Some?
  {
    Recorded(c, history, episodes) ==> AllInLimit(c, history)
  }

  lemma {:induction false} HistoryKeepsLimit(c: Config, history: seq<Usage>, episodes: seq<Episode>)
    requires c.maxRecoveryAttempts.Some? && !Overshootable(c) && Recorded(c, history, episodes)
    ensures AllInLimit(c, history)
    decreases |episodes|
  {
    if episodes != [] {
      var earlier, last := history[..|history| - 1], episodes[|episodes| - 1];
      HistoryKeepsLimit(c, earlier, episodes[..|episodes| - 1]);
      SessionKeepsLimit(c, earlier[last.from], last.answers);
      assert forall i | 0 <= i < |earlier| :: history[i] == earlier[i];
    }
  }

  /** Spent one recovery at a time, each by a failed model call of a session of its own. */
  function Spent(n: nat): seq<Usage> {
    seq(n + 1, i requires i >= 0 => Usage(0, i))
  }

  lemma {:induction false} SpendOneByOne(c: Config, n: nat) returns (episodes: seq<Episode>)
    requires c.maxRecoveryAttempts.Some? && n <= c.maxRecoveryAttempts.value && StepLimitOf(c) >= 1
    ensures Recorded(c, Spent(n), episodes)
  {
    if n == 0 {
      episodes := [];
    } else {
      var earlier := SpendOneByOne(c, n - 1);
      var e := Episode(n - 1, [DecisionFails(Restore(true))], Usage(0, n));
      OneTurn(c, NewSession(Usage(0, n - 1)), DecisionFails(Restore(true)));
      assert Spent(n - 1)[n - 1] == Usage(0, n - 1);
      RecordOne(c, Spent(n - 1), earlier, e);
      assert Spent(n) == Spent(n - 1) + [Usage(0, n)];
      episodes := earlier + [e];
    }
  }

  /** The bound over all resumptions is reached: twice the limit less one. */
  lemma LimitIsOvershot(c: Config) returns (history: seq<Usage>, episodes: seq<Episode>)
    requires c.maxRecoveryAttempts.Some? && Overshootable(c)
    ensures Recorded(c, history, episodes)
    ensures history != [] && history[|history| - 1].recoveryCount == 2 * c.maxRecoveryAttempts.value - 1
  {
    var limit := c.maxRecoveryAttempts.value;
    var before := SpendOneByOne(c, limit - 1);
    var u := Usage(0, limit - 1);
    assert Spent(limit - 1)[limit - 1] == u;
    var a := Overshoot(c, u);
    var e := Episode(limit - 1, [a], Usage(1, 2 * limit - 1));
    RecordOne(c, Spent(limit - 1), before, e);
    history, episodes := Spent(limit - 1) + [e.recorded], before + [e];
  }

  /** Over any number of resumptions the recovery limit holds exactly when recovery is disabled, the limit
      leaves no room for a second attempt, or no step may be taken at all. */
  lemma RecordedWithinLimitIff(c: Config)
    requires c.maxRecoveryAttempts.Some?
    ensures (forall history, episodes :: RecordedInLimit(c, history, episodes)) <==> !Overshootable(c)
  {
    if Overshootable(c) {
      var history, episodes := LimitIsOvershot(c);
      assert !InLimit(c, history[|history| - 1].recoveryCount);
      assert !RecordedInLimit(c, history, episodes);
    } else {
      forall history, episodes ensures RecordedInLimit(c, history, episodes) {
        if Recorded(c, history, episodes) { HistoryKeepsLimit(c, history, episodes); }
      }
    }
  }

  lemma OneTurn(c: Config, s: State, a: Answer)
    ensures Loop(c, s, [a]).state == Turn(c, s, 1, a).0
  {
    assert [a][..0] == [];
  }

  lemma RecordOne(c: Config, history: seq<Usage>, episodes: seq<Episode>, e: Episode)
    requires Recorded(c, history, episodes) && e.from < |history| && Legal(c, history, e)
    ensures Recorded(c, history + [e.recorded], episodes + [e])
  {
    assert (history + [e.recorded])[..|history|] == history;
    assert (episodes + [e])[..|episodes|] == episodes;
    if episodes == [] { assert |history| == 1; }
  }

  /** How many times the last action set was repeated in a row. */
  function Streak(acted: seq<string>): nat {
    if acted == [] then 0
    else
      var shorter := acted[..|acted| - 1];
      if shorter != [] && shorter[|shorter| - 1] == acted[|acted| - 1] then Streak(shorter) + 1 else 1
  }

  ghost predicate CountsRepeats(s: State) {
    s.noProgress == if s.acted == [] then 0 else Streak(s.acted) - 1
  }

  ghost predicate RepeatsOk(c: Config, t: State, stop: Option<Stop>) {
    && CountsRepeats(t) && Streak(t.acted) <= c.maxNoProgress + 1
    && (stop.None? ==> Streak(t.acted) <= c.maxNoProgress)
    && (stop == Some(NoProgress) ==> Streak(t.acted) == c.maxNoProgress + 1)
  }

  lemma OneMoreAct(s: State, signature: string)
    requires CountsRepeats(s)
    ensures CountsRepeats(Acted(s, signature)) && 1 <= Streak(Acted(s, signature).acted) <= Streak(s.acted) + 1
  {
    assert (s.acted + [signature])[..|s.acted|] == s.acted;
  }

  /** What follows the execution does not touch the count of repeats, and only the count stops for lack of progress. */
  lemma ActStopsOnCount(c: Config, s: State, a: Answer)
    requires a.Acts?
    ensures var (t, stop) := Act(c, s, a);
            && t.acted == Acted(s, a.signature).acted && t.noProgress == Acted(s, a.signature).noProgress
            && (stop.None? ==> t.noProgress < c.maxNoProgress)
            && (stop == Some(NoProgress) ==> t.noProgress >= c.maxNoProgress)
  {
    var acted := Acted(s, a.signature);
    RecoveryDepth(c, acted.(denials := acted.denials + a.denied), a.strategies);
    RecoverySilent(c, acted.(denials := acted.denials + a.denied), a.strategies);
  }

  lemma ActCountsRepeats(c: Config, s: State, a: Answer)
    requires a.Acts? && CountsRepeats(s) && Streak(s.acted) <= c.maxNoProgress
    ensures RepeatsOk(c, Act(c, s, a).0, Act(c, s, a).1)
  {
    OneMoreAct(s, a.signature);
    ActStopsOnCount(c, s, a);
  }

  lemma {:induction false} RecoverySilent(c: Config, s: State, strategies: nat -> Strategy)
    ensures var stop := Recover(c, s, strategies).1; stop.None? || stop == Some(RecoveryStopped)
    decreases Max(0, RecoveryLimitOf(c) - s.recoveryAttempts)
  {
    if c.recoveryEnabled && strategies(s.recoveryAttempts) == Retry(false)
        && s.recoveryAttempts + 1 < RecoveryLimitOf(c) {
      RecoverySilent(c, CountRecovery(s), strategies);
    }
  }

  lemma TurnActsOrNot(c: Config, s: State, iteration: nat, a: Answer)
    ensures var (t, stop) := Turn(c, s, iteration, a);
            || (a.Acts? && (t, stop) == Act(c, s.(steps := s.steps + 1), a))
            || (t.acted == s.acted && t.noProgress == s.noProgress && stop != Some(NoProgress))
  {
  }

  lemma TurnCountsRepeats(c: Config, s: State, iteration: nat, a: Answer)
    requires CountsRepeats(s) && Streak(s.acted) <= c.maxNoProgress
    ensures RepeatsOk(c, Turn(c, s, iteration, a).0, Turn(c, s, iteration, a).1)
  {
    TurnActsOrNot(c, s, iteration, a);
    var turn := Turn(c, s, iteration, a);
    if a.Acts? && turn == Act(c, s.(steps := s.steps + 1), a) {
      ActCountsRepeats(c, s.(steps := s.steps + 1), a);
    }
  }

  /** The loop never executes the same action set more than `maxNoProgress + 1` times in a row, and it stops for
      lack of progress only then. */
  lemma {:induction false} RepeatsAreBounded(c: Config, u: Usage, answers: seq<Answer>)
    ensures RepeatsOk(c, Loop(c, NewSession(u), answers).state, Loop(c, NewSession(u), answers).stop)
  {
    if answers != [] {
      RepeatsAreBounded(c, u, answers[..|answers| - 1]);
      var p := Loop(c, NewSession(u), answers[..|answers| - 1]);
      if p.stop.None? { TurnCountsRepeats(c, p.state, p.iterations + 1, answers[|answers| - 1]); }
    }
  }

  function Prefix(answers: nat -> Answer, n: nat): (s: seq<Answer>)
    ensures |s| == n
  {
    seq(n, (i: nat) => answers(i))
  }

  lemma LoopGoesOn(c: Config, answers: nat -> Answer, start: State, n: nat, s: State, t: State, stop: Option<Stop>)
    requires n > 0 && Loop(c, start, Prefix(answers, n - 1)) == Progress(s, n - 1, None)
    requires (t, stop) == Turn(c, s, n, answers(n - 1))
    ensures Loop(c, start, Prefix(answers, n)) == Progress(t, n, stop)
  {
    assert Prefix(answers, n)[..n - 1] == Prefix(answers, n - 1);
  }

  lemma {:induction false} IterationsAtMost(c: Config, start: State, answers: seq<Answer>)
    ensures Loop(c, start, answers).iterations <= |answers|
  {
    if answers != [] { IterationsAtMost(c, start, answers[..|answers| - 1]); }
  }

  /** The turns of the loop are a course: each but the last goes on, and the last one yields the loop's stop. */
  lemma {:induction false} LoopIsCourse(c: Config, answers: nat -> Answer, start: State, n: nat)
    requires Loop(c, start, Prefix(answers, n)).iterations == n
    ensures var p := Loop(c, start, Prefix(answers, n)); Comes(c, answers, start, n, p.state, p.stop)
  {
    if n == 0 {
      assert IsCourse(c, answers, [start], None);
    } else {
      var before := Prefix(answers, n - 1);
      assert Prefix(answers, n)[..n - 1] == before;
      IterationsAtMost(c, start, before);
      LoopIsCourse(c, answers, start, n - 1);
      var s := Loop(c, start, before).state;
      TurnStops(c, s, n, answers(n - 1));
      TurnCounts(c, s, n, answers(n - 1));
      var (t, stop) := Turn(c, s, n, answers(n - 1));
      OneTurnFurther(c, answers, start, n - 1, s, t, stop);
    }
  }

  class AgentSession {
    const config: Config
    var steps: nat
    var recoveryCount: nat
    var recoveryAttempts: nat
    var denials: nat
    var noProgress: nat
    var acted: seq<string>

    /** A session is rebuilt from durable usage alone. */
    constructor (config: Config, usage: Usage)
      ensures this.config == config && Abs() == NewSession(usage)
    {
      this.config := config;
      steps, recoveryCount := usage.steps, usage.recoveryCount;
      recoveryAttempts, denials, noProgress, acted := 0, 0, 0, [];
    }

    ghost function Abs(): State
      reads this
    {
      State(steps, recoveryCount, recoveryAttempts, denials, noProgress, acted)
    }

    /** Turns until something stops the run, whatever it is answered. */
    method Iterate(answers: nat -> Answer) returns (iterations: nat, stop: Stop)
      modifies this
      ensures Loop(config, old(Abs()), Prefix(answers, iterations)) == Progress(Abs(), iterations, Some(stop))
      ensures iterations <= Max(0, StepLimitOf(config)) + 1
      ensures Comes(config, answers, old(Abs()), iterations, Abs(), Some(stop))
    {
      iterations := 0;
      ghost var start := Abs();
      var stopped: Option<Stop> := None;
      while stopped.None?
        invariant Loop(config, start, Prefix(answers, iterations)) == Progress(Abs(), iterations, stopped)
        decreases Max(0, StepLimitOf(config)) + 1 - iterations, stopped.None?
      {
        ghost var was := Abs();
        TurnsAreBounded(config, start, Prefix(answers, iterations));
        iterations := iterations + 1;
        stopped := TakeTurn(iterations, answers(iterations - 1));
        LoopGoesOn(config, answers, start, iterations, was, Abs(), stopped);
      }
      TurnsAreBounded(config, start, Prefix(answers, iterations));
      LoopIsCourse(config, answers, start, iterations);
      stop := stopped.value;
    }

    method TakeTurn(iteration: nat, answer: Answer) returns (stop: Option<Stop>)
      modifies this
      ensures (Abs(), stop) == Turn(config, old(Abs()), iteration, answer)
      ensures StopLaw(config, old(Abs()), iteration, answer, stop)
      ensures CountLaw(config, old(Abs()), iteration, answer, Abs())
    {
      TurnStops(config, Abs(), iteration, answer);
      TurnCounts(config, Abs(), iteration, answer);
      if Exceeded(config.maxSteps, steps) || Exceeded(config.maxRecoveryAttempts, recoveryCount)
          || answer.OtherBudgetExceeded? {
        return Some(BudgetExceeded);
      }
      if answer.Interrupted? { return Some(WasInterrupted); }
      if iteration > StepLimitOf(config) { return Some(StepLimit); }
      match answer
      case PlanningStops => return Some(StoppedPlanning);
      case DecisionCancelled => return Some(WasInterrupted);
      case DecisionFails(rescue) => stop := RescueDecision(rescue);
      case FinishedVerified =>
        steps := steps + 1;
        return Some(Completed);
      case FinishedUnverified(verdict) =>
        steps := steps + 1;
        CountOne();
        if verdict == GiveUp || recoveryAttempts > RecoveryLimitOf(config) { return Some(VerificationFailed); }
        return if verdict == AskHuman then Some(AwaitingApproval) else None;
      case Acts(_, _, _, _, _, _) =>
        steps := steps + 1;
        stop := ActOn(answer);
    }

    method RescueDecision(rescue: Rescue) returns (stop: Option<Stop>)
      modifies this
      ensures (Abs(), stop) == Decide(config, old(Abs()), rescue)
    {
      CountOne();
      match rescue
      case Abandon => return Some(DecisionFailed);
      case Ask => return Some(AwaitingApproval);
      case Restore(found) => return if found then None else Some(DecisionFailed);
      case CallAgain => return if recoveryAttempts < CallLimitOf(config) then None else Some(DecisionFailed);
    }

    method ActOn(a: Answer) returns (stop: Option<Stop>)
      requires a.Acts?
      modifies this
      ensures (Abs(), stop) == Act(config, old(Abs()), a)
    {
      noProgress := if acted != [] && acted[|acted| - 1] == a.signature then noProgress + 1 else 0;
      acted := acted + [a.signature];
      if a.recordStops { return Some(StoppedRecording); }
      if a.awaitingApproval > 0 { return Some(AwaitingApproval); }
      if a.denied > 0 {
        denials := denials + a.denied;
        if denials >= 3 { return Some(RepeatedDenials); }
      }
      if a.failed > 0 {
        stop := RecoverFrom(a.strategies);
        if stop.Some? { return stop; }
      }
      return if noProgress >= config.maxNoProgress then Some(NoProgress) else None;
    }

    method RecoverFrom(strategies: nat -> Strategy) returns (stop: Option<Stop>)
      modifies this
      ensures (Abs(), stop) == Recover(config, old(Abs()), strategies)
      decreases Max(0, RecoveryLimitOf(config) - recoveryAttempts)
    {
      if !config.recoveryEnabled { return None; }
      var strategy := strategies(recoveryAttempts);
      CountOne();
      match strategy
      case Terminate => return Some(RecoveryStopped);
      case OtherStrategy(stops) => return if stops then Some(RecoveryStopped) else None;
      case Retry(succeeds) =>
        if succeeds { return None; }
        if recoveryAttempts >= RecoveryLimitOf(config) { return Some(RecoveryStopped); }
        stop := RecoverFrom(strategies);
    }

    method CountOne()
      modifies this`recoveryAttempts, this`recoveryCount
      ensures Abs() == CountRecovery(old(Abs()))
    {
      recoveryAttempts := recoveryAttempts + 1;
      recoveryCount := recoveryCount + 1;
    }
  }
}
