/** The circuit breaker over time: what its counters mean and when it lets a call through. */
module CircuitBreakers {

  datatype Settings = Settings(failureThreshold: nat, successThreshold: nat, openMs: nat, halfOpenMaxCalls: nat)

  datatype Mode = Closed | Open | HalfOpen

  datatype State = State(mode: Mode, failures: nat, successes: nat, openedAt: int, halfOpenCalls: nat)

  datatype Op = RecordSuccess | RecordFailure | IsAllowed | ClaimProbe | ReadState

  /** One call on the breaker, its first and its last reading of the clock, and what it answered. */
  datatype Event = Event(time: int, later: int, op: Op, answer: bool)

  const INITIAL := State(Closed, 0, 0, 0, 0)

  /** A threshold is compared after counting, so zero means one. */
  function AtLeastOne(threshold: nat): nat {
    if threshold == 0 then 1 else threshold
  }

  /** When a breaker that tripped last at `openedAt` may be probed. */
  function ProbeTime(c: Settings, s: State): int {
    s.openedAt + c.openMs
  }

  function AfterWaiting(c: Settings, s: State, now: int): State {
    if s.mode == Open && now - s.openedAt >= c.openMs then s.(mode := HalfOpen, successes := 0, halfOpenCalls := 0)
        else s
  }

  function Tripped(s: State, now: int): State {
    s.(mode := Open, openedAt := now, halfOpenCalls := 0)
  }

  function Cleared(s: State): State {
    s.(mode := Closed, failures := 0, successes := 0, halfOpenCalls := 0)
  }

  function Allows(c: Settings, s: State): bool {
    match s.mode
    case Open => false
    case HalfOpen => s.halfOpenCalls < c.halfOpenMaxCalls
    case Closed => true
  }

  /** `now` is the first reading of the clock; a failure that trips and a probe that finds no half-open breaker at
      `now` read it once more, at `later`. */
  function Step(c: Settings, s: State, now: int, later: int, op: Op): (State, bool) {
    var t := AfterWaiting(c, s, now);
    match op
    case RecordSuccess =>
      if t.mode == HalfOpen then
        var u := t.(successes := t.successes + 1);
        (if u.successes >= c.successThreshold then Cleared(u) else u, true)
      else (t.(failures := 0), true)
    case RecordFailure =>
      var u := t.(failures := t.failures + 1);
      (if u.mode == HalfOpen || u.failures >= c.failureThreshold then Tripped(u, later) else u, true)
    case IsAllowed => (t, Allows(c, t))
    case ClaimProbe =>
      if t.mode == HalfOpen then
        if t.halfOpenCalls < c.halfOpenMaxCalls then (t.(halfOpenCalls := t.halfOpenCalls + 1), true) else (t, false)
      else
        var u := AfterWaiting(c, t, later);
        (u, Allows(c, u))
    case ReadState => (t, true)
  }

  /** Failures recorded since the last recorded success. */
  function FailuresSinceSuccess(h: seq<Event>): nat {
    if h == [] then 0
    else
      var e := h[|h| - 1];
      match e.op
      case RecordSuccess => 0
      case RecordFailure => FailuresSinceSuccess(h[..|h| - 1]) + 1
      case _ => FailuresSinceSuccess(h[..|h| - 1])
  }

  /** Successes recorded at or after `start` and since the last failure. */
  function SuccessesFrom(h: seq<Event>, start: int): nat {
    if h == [] || h[|h| - 1].op == RecordFailure then 0
    else SuccessesFrom(h[..|h| - 1], start) + if h[|h| - 1].op == RecordSuccess && h[|h| - 1].time >= start then 1
        else 0
  }

  /** Probes granted by calls made at or after `start` and since the last failure. */
  function ProbesFrom(h: seq<Event>, start: int): nat {
    if h == [] || h[|h| - 1].op == RecordFailure then 0
    else
      ProbesFrom(h[..|h| - 1], start)
      + if h[|h| - 1].op == ClaimProbe && h[|h| - 1].answer && h[|h| - 1].time >= start then 1 else 0
  }

  /** What the state says about everything recorded so far. */
  ghost predicate Describes(c: Settings, s: State, h: seq<Event>) {
    && (s.mode == Closed ==> s.failures == FailuresSinceSuccess(h) < AtLeastOne(c.failureThreshold))
    && (s.mode == Open ==>
          && (forall i | 0 <= i < |h| :: h[i].time < ProbeTime(c, s) || h[i].time <= s.openedAt)
          && SuccessesFrom(h, ProbeTime(c, s)) == 0 == ProbesFrom(h, ProbeTime(c, s)))
    && (s.mode == HalfOpen ==>
          && h != [] && h[|h| - 1].later >= ProbeTime(c, s)
          && s.successes == SuccessesFrom(h, ProbeTime(c, s)) < AtLeastOne(c.successThreshold)
          && s.halfOpenCalls == ProbesFrom(h, ProbeTime(c, s)) <= c.halfOpenMaxCalls)
  }

  /** A run under a clock that never goes back. */
  ghost predicate Ran(c: Settings, h: seq<Event>, s: State) {
    if h == [] then s == INITIAL
    else
      var e := h[|h| - 1];
      exists before ::
        && Ran(c, h[..|h| - 1], before) && Step(c, before, e.time, e.later, e.op) == (s, e.answer)
        && e.time <= e.later && (|h| > 1 ==> h[|h| - 2].later <= e.time)
  }

  lemma RanSnoc(c: Settings, h: seq<Event>, s: State, e: Event)
    requires Ran(c, h, s) && (h != [] ==> h[|h| - 1].later <= e.time) && e.time <= e.later
    requires Step(c, s, e.time, e.later, e.op).1 == e.answer
    ensures Ran(c, h + [e], Step(c, s, e.time, e.later, e.op).0)
  {
    var longer := h + [e];
    assert longer[..|longer| - 1] == h && longer[|longer| - 1] == e;
    assert Ran(c, longer[..|longer| - 1], s)
        && Step(c, s, e.time, e.later, e.op) == (Step(c, s, e.time, e.later, e.op).0, e.answer);
  }

  lemma {:induction false} ClockAscends(c: Settings, h: seq<Event>, s: State)
    requires Ran(c, h, s) && h != []
    ensures forall i | 0 <= i < |h| :: h[i].time <= h[i].later <= h[|h| - 1].later
    ensures forall i | 0 <= i < |h| - 1 :: h[i].later <= h[|h| - 1].time
  {
    var e := h[|h| - 1];
    var before :| Ran(c, h[..|h| - 1], before) && Step(c, before, e.time, e.later, e.op) == (s, e.answer);
    if |h| > 1 {
      ClockAscends(c, h[..|h| - 1], before);
      assert forall i | 0 <= i < |h| - 1 :: h[i] == h[..|h| - 1][i];
    }
  }

  lemma StepDescribes(c: Settings, s: State, h: seq<Event>, e: Event)
    requires Describes(c, s, h) && e.time <= e.later && forall i | 0 <= i < |h| :: h[i].time <= h[i].later <= e.time
    requires Step(c, s, e.time, e.later, e.op).1 == e.answer
    ensures Describes(c, Step(c, s, e.time, e.later, e.op).0, h + [e])
  {
    if AfterWaiting(c, s, e.time).mode == HalfOpen {
      HalfOpenStepDescribes(c, s, h, e);
    } else {
      assert (h + [e])[..|h|] == h;
    }
  }

  lemma HalfOpenStepDescribes(c: Settings, s: State, h: seq<Event>, e: Event)
    requires Describes(c, s, h) && e.time <= e.later && forall i | 0 <= i < |h| :: h[i].time <= h[i].later <= e.time
    requires Step(c, s, e.time, e.later, e.op).1 == e.answer && AfterWaiting(c, s, e.time).mode == HalfOpen
    ensures Describes(c, Step(c, s, e.time, e.later, e.op).0, h + [e])
  {
    assert (h + [e])[..|h|] == h;
    var t, start := AfterWaiting(c, s, e.time), ProbeTime(c, s);
    assert e.time >= start;
    assert t.successes == SuccessesFrom(h, start) && t.halfOpenCalls == ProbesFrom(h, start);
    if e.op == RecordFailure {
      assert forall i | 0 <= i < |h + [e]| :: (h + [e])[i].later <= e.later;
    }
  }

  /** In every reachable state: CLOSED holds exactly the failures since the last success and fewer than the threshold;
      HALF_OPEN holds exactly the successes and the probes of this half-open period, within their limits; a tripped
      breaker has counted none yet.  A probe belongs to the period in which its call was made. */
  lemma {:induction false} ReachableStatesDescribed(c: Settings, h: seq<Event>, s: State)
    requires Ran(c, h, s)
    ensures Describes(c, s, h)
  {
    if h != [] {
      var before := LastStep(c, h, s);
      ReachableStatesDescribed(c, h[..|h| - 1], before);
      ClockAscends(c, h, s);
      LastStepDescribes(c, h, before);
    }
  }

  lemma LastStepDescribes(c: Settings, h: seq<Event>, before: State)
    requires h != [] && Describes(c, before, h[..|h| - 1])
    requires forall i | 0 <= i < |h| :: h[i].time <= h[i].later && (i < |h| - 1 ==> h[i].later <= h[|h| - 1].time)
    requires var e := h[|h| - 1]; Step(c, before, e.time, e.later, e.op).1 == e.answer
    ensures var e := h[|h| - 1]; Describes(c, Step(c, before, e.time, e.later, e.op).0, h)
  {
    var earlier, e := h[..|h| - 1], h[|h| - 1];
    forall i | 0 <= i < |earlier| ensures earlier[i].time <= earlier[i].later <= e.time {
      assert earlier[i] == h[i];
    }
    StepDescribes(c, before, earlier, e);
    assert h == earlier + [e];
  }

  lemma LastStep(c: Settings, h: seq<Event>, s: State) returns (before: State)
    requires Ran(c, h, s) && h != []
    ensures var e := h[|h| - 1];
            Ran(c, h[..|h| - 1], before) && Step(c, before, e.time, e.later, e.op) == (s, e.answer)
  {
    var e := h[|h| - 1];
    before :| Ran(c, h[..|h| - 1], before) && Step(c, before, e.time, e.later, e.op) == (s, e.answer);
  }

  function Run(c: Settings, s: State, calls: seq<(int, int, Op)>): State {
    if calls == [] then s
    else
      var (now, later, op) := calls[|calls| - 1];
      Step(c, Run(c, s, calls[..|calls| - 1]), now, later, op).0
  }

  /** After a trip at `t`, whatever is recorded meanwhile, no call is allowed before `t + openMs`. */
  lemma {:induction false} NothingAllowedWhileOpen(c: Settings, s: State, calls: seq<(int, int, Op)>, t: int)
    requires s.mode == Open && s.openedAt >= t
    requires forall i | 0 <= i < |calls| :: t <= calls[i].0 <= calls[i].1 < t + c.openMs
    ensures Run(c, s, calls).mode == Open && Run(c, s, calls).openedAt >= t
    ensures calls != [] ==>
              var (now, later, op) := calls[|calls| - 1];
              op == IsAllowed || op == ClaimProbe ==> !Step(c, Run(c, s, calls[..|calls| - 1]), now, later, op).1
  {
    if calls != [] {
      NothingAllowedWhileOpen(c, s, calls[..|calls| - 1], t);
    }
  }

  /** An open breaker lets a call through again exactly from `openMs` after its trip on, if it grants probes at all; a
      probe is decided by the last reading of the clock. */
  lemma AllowedAgainExactlyWhenDue(c: Settings, s: State, now: int, later: int)
    requires s.mode == Open && now <= later
    ensures Step(c, s, now, later, IsAllowed).1 <==> now >= ProbeTime(c, s) && c.halfOpenMaxCalls >= 1
    ensures Step(c, s, now, later, ClaimProbe).1 <==> later >= ProbeTime(c, s) && c.halfOpenMaxCalls >= 1
    ensures Step(c, s, now, later, ReadState).0.mode == if now >= ProbeTime(c, s) then HalfOpen else Open
  {
  }

  /** A granted probe takes no slot, though the breaker is not closed, exactly when the open time ends between the
      two readings of the clock. */
  lemma UnclaimedProbeIff(c: Settings, h: seq<Event>, s: State, now: int, later: int)
    requires Ran(c, h, s) && s.mode != Closed && Step(c, s, now, later, ClaimProbe).1
    requires now <= later && (h != [] ==> h[|h| - 1].later <= now)
    ensures ProbesFrom(h + [Event(now, later, ClaimProbe, true)], ProbeTime(c, s)) == ProbesFrom(h, ProbeTime(c, s))
            <==> s.mode == Open && now < ProbeTime(c, s) <= later
    ensures var t := Step(c, s, now, later, ClaimProbe).0;
            t.mode == HalfOpen
            && t.halfOpenCalls == ProbesFrom(h + [Event(now, later, ClaimProbe, true)], ProbeTime(c, s))
  {
    ReachableStatesDescribed(c, h, s);
    assert (h + [Event(now, later, ClaimProbe, true)])[..|h|] == h;
  }

  /** From CLOSED the breaker opens exactly on the failure that completes the threshold. */
  lemma TripsExactlyAtThreshold(c: Settings, h: seq<Event>, s: State, now: int, later: int, op: Op)
    requires Ran(c, h, s) && s.mode == Closed
    ensures Step(c, s, now, later, op).0.mode == Open
            <==> op == RecordFailure && FailuresSinceSuccess(h) + 1 == AtLeastOne(c.failureThreshold)
  {
    ReachableStatesDescribed(c, h, s);
  }

  /** It closes again exactly on the success that completes the threshold within one half-open period. */
  lemma ClosesExactlyAtThreshold(c: Settings, h: seq<Event>, s: State, now: int, later: int, op: Op)
    requires Ran(c, h, s) && s.mode == HalfOpen
    ensures Step(c, s, now, later, op).0.mode == Closed <==>
              op == RecordSuccess && SuccessesFrom(h, ProbeTime(c, s)) + 1 == AtLeastOne(c.successThreshold)
    ensures Step(c, s, now, later, op).0.mode == Open <==> op == RecordFailure
  {
    ReachableStatesDescribed(c, h, s);
  }

  class DefaultCircuitBreaker {
    const settings: Settings
    var currentMode: Mode
    var failures: nat
    var successes: nat
    var openedAt: int
    var halfOpenCalls: nat
    ghost var history: seq<Event>

    constructor (settings: Settings)
      ensures Abs() == INITIAL && history == [] && this.settings == settings && Valid()
    {
      this.settings := settings;
      currentMode, failures, successes, openedAt, halfOpenCalls := Closed, 0, 0, 0, 0;
      history := [];
    }

    ghost function Abs(): State
      reads this
    {
      State(currentMode, failures, successes, openedAt, halfOpenCalls)
    }

    ghost predicate Valid()
      reads this
    {
      Ran(settings, history, Abs())
    }

    /** The breaker is half open, or its open time has run out at this reading. */
    ghost predicate Probing(now: int)
      reads this
    {
      currentMode == HalfOpen || (currentMode == Open && now >= openedAt + settings.openMs)
    }

    ghost predicate NotBefore(now: int)
      reads this
    {
      history != [] ==> history[|history| - 1].later <= now
    }

    ghost method Log(now: int, later: int, op: Op, answer: bool, s: State)
      requires Ran(settings, history, s) && NotBefore(now) && now <= later
      requires Step(settings, s, now, later, op) == (Abs(), answer)
      modifies this`history
      ensures Valid() && history == old(history) + [Event(now, later, op, answer)]
    {
      RanSnoc(settings, history, s, Event(now, later, op, answer));
      history := history + [Event(now, later, op, answer)];
    }

    method MaybeTransition(now: int)
      modifies this`currentMode, this`successes, this`halfOpenCalls
      ensures Abs() == AfterWaiting(settings, old(Abs()), now)
    {
      if currentMode == Open && now - openedAt >= settings.openMs {
        currentMode, successes, halfOpenCalls := HalfOpen, 0, 0;
      }
    }

    method ModeAt(now: int) returns (mode: Mode)
      requires Valid() && NotBefore(now)
      modifies this
      ensures Valid() && history == old(history) + [Event(now, now, ReadState, true)]
      ensures mode == currentMode && Abs() == Step(settings, old(Abs()), now, now, ReadState).0
    {
      ghost var start := Abs();
      MaybeTransition(now);
      Log(now, now, ReadState, true, start);
      return currentMode;
    }

    method IsAllowed(now: int) returns (allowed: bool)
      requires Valid() && NotBefore(now)
      modifies this
      ensures Valid() && history == old(history) + [Event(now, now, Op.IsAllowed, allowed)]
      ensures (Abs(), allowed) == Step(settings, old(Abs()), now, now, Op.IsAllowed)
      ensures allowed <==>
                || old(currentMode) == Closed
                || (old(currentMode) == HalfOpen && old(halfOpenCalls) < settings.halfOpenMaxCalls)
                || (old(currentMode) == Open && now >= old(openedAt) + settings.openMs
                    && settings.halfOpenMaxCalls > 0)
    {
      ghost var start := Abs();
      MaybeTransition(now);
      allowed := Allowed();
      Log(now, now, Op.IsAllowed, allowed, start);
    }

    method RecordSuccess(now: int)
      requires Valid() && NotBefore(now)
      modifies this
      ensures Valid() && history == old(history) + [Event(now, now, Op.RecordSuccess, true)]
      ensures Abs() == Step(settings, old(Abs()), now, now, Op.RecordSuccess).0
      ensures old(Probing(now)) ==>
                var count := (if old(currentMode) == HalfOpen then old(successes) else 0) + 1;
                if count >= settings.successThreshold
                then currentMode == Closed && failures == 0 && successes == 0
                else currentMode == HalfOpen && failures == old(failures) && successes == count
      ensures !old(Probing(now)) ==> currentMode == old(currentMode) && failures == 0
      ensures openedAt == old(openedAt)
    {
      ghost var start := Abs();
      MaybeTransition(now);
      if currentMode == HalfOpen {
        successes := successes + 1;
        if successes >= settings.successThreshold { Reset(); }
      } else {
        failures := 0;
      }
      Log(now, now, Op.RecordSuccess, true, start);
    }

    method RecordFailure(now: int, later: int)
      requires Valid() && NotBefore(now) && now <= later
      modifies this
      ensures Valid() && history == old(history) + [Event(now, later, Op.RecordFailure, true)]
      ensures Abs() == Step(settings, old(Abs()), now, later, Op.RecordFailure).0
      ensures failures == old(failures) + 1
      ensures if old(Probing(now)) || failures >= settings.failureThreshold
              then currentMode == Open && openedAt == later && halfOpenCalls == 0
              else currentMode == old(currentMode) && openedAt == old(openedAt)
    {
      ghost var start := Abs();
      MaybeTransition(now);
      failures := failures + 1;
      if currentMode == HalfOpen || failures >= settings.failureThreshold { Trip(later); }
      Log(now, later, Op.RecordFailure, true, start);
    }

    /** Grants a probe; of the slots of a half-open period one is taken only if the first reading finds it begun. */
    method ClaimProbe(now: int, later: int) returns (claimed: bool)
      requires Valid() && NotBefore(now) && now <= later
      modifies this
      ensures Valid() && history == old(history) + [Event(now, later, Op.ClaimProbe, claimed)]
      ensures (Abs(), claimed) == Step(settings, old(Abs()), now, later, Op.ClaimProbe)
      ensures claimed <==>
                || old(currentMode) == Closed
                || (old(currentMode) == HalfOpen && old(halfOpenCalls) < settings.halfOpenMaxCalls)
                || (old(currentMode) == Open && later >= old(openedAt) + settings.openMs
                    && settings.halfOpenMaxCalls > 0)
      ensures old(Probing(now)) && claimed ==>
                halfOpenCalls == (if old(currentMode) == HalfOpen then old(halfOpenCalls) else 0) + 1
    {
      ghost var start := Abs();
      MaybeTransition(now);
      if currentMode != HalfOpen {
        MaybeTransition(later);
        claimed := Allowed();
      } else {
        claimed := halfOpenCalls < settings.halfOpenMaxCalls;
        if claimed { halfOpenCalls := halfOpenCalls + 1; }
      }
      Log(now, later, Op.ClaimProbe, claimed, start);
    }

    predicate Allowed()
      reads this
    {
      if currentMode == Open then false
      else if currentMode == HalfOpen then halfOpenCalls < settings.halfOpenMaxCalls
      else true
    }

    method Trip(now: int)
      modifies this`currentMode, this`openedAt, this`halfOpenCalls
      ensures Abs() == Tripped(old(Abs()), now)
    {
      currentMode, openedAt, halfOpenCalls := Open, now, 0;
    }

    method Reset()
      modifies this`currentMode, this`failures, this`successes, this`halfOpenCalls
      ensures Abs() == Cleared(old(Abs()))
    {
      currentMode, failures, successes, halfOpenCalls := Closed, 0, 0, 0;
    }
  }
}
