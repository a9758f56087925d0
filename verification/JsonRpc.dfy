/** The JSON-RPC client: a call settles at most once, and only by its own response, timer or failure. */
module JsonRpc {
  import opened Wrappers
  import opened Decimals

  /** The `id` of a message from the peer, as the wire carries it: an array, an object, a boolean or a
      number that is no integer comes with the text `String()` makes of it, unless it throws. */
  datatype WireId = NoId | NullId | TextId(text: string) | NumberId(number: int) | OtherId(text: string) | UnprintableId

  datatype WireMethod = NoMethod | MethodName(name: string) | OtherMethod

  /** The `error` member: a null one counts as present, but there is nothing to read from it. */
  datatype WireError = NoError | NullError | ErrorValue

  datatype Message =
    | NotAnObject
    | Object(isVersion2: bool, id: WireId, verb: WireMethod, hasResult: bool, error: WireError, content: string)

  datatype Outcome =
    | Resolved(content: string)
    | RejectedByPeer(content: string)
    | TimedOut
    | SendFailed(reason: string)
    | TransportFailed(reason: string)
    | ClientClosed

  datatype Note = Notified | AskedByPeer(from: WireId) | Malformed | ResponseWithoutId | TransportError(reason: string)

  /** The client: calls in flight with their armed watchdogs, what every settled call got, and what the
      callbacks were told.  `lost` holds the calls that left the table without being settled, `twice`
      records that a call was settled again. */
  datatype State = State(
    pending: map<string, string>, armed: set<string>, nextId: nat, closed: bool,
    settled: map<string, Outcome>, lost: set<string>, twice: bool, notes: seq<Note>)

  datatype Event =
    | Request(verb: string)
    | TimerFires(call: string)
    | SendFails(call: string, reason: string)
    | Receive(message: Message)
    | TransportFails(reason: string)
    | TransportCloses(reason: string)
    | Close

  /** `String(id)` for the ids a response can carry. */
  function IdText(id: WireId): string
    requires !id.UnprintableId?
  {
    match id
    case NoId => "undefined"
    case NullId => "null"
    case TextId(text) => text
    case OtherId(text) => text
    case NumberId(n) => if n < 0 then "-" + Decimal(-n) else Decimal(n)
  }

  function Issued(nextId: nat): set<string> {
    set k | 1 <= k < nextId :: Decimal(k)
  }

  predicate IsNotification(m: Message) {
    m.Object? && m.isVersion2 && m.verb.MethodName? && m.id.NoId?
  }

  predicate IsServerRequest(m: Message) {
    m.Object? && !m.verb.NoMethod? && !m.id.NoId?
  }

  predicate IsMessage(m: Message) {
    m.Object? && m.isVersion2 && (m.hasResult || !m.error.NoError?)
  }

  /** A message that is taken for an answer: neither a notification nor a request, well formed, with an id. */
  predicate IsResponse(m: Message) {
    !IsNotification(m) && !IsServerRequest(m) && IsMessage(m) && !m.id.NoId? && !m.id.NullId? && !m.id.UnprintableId?
  }

  /** An answer to `call` whose null error member makes the client throw after it has dropped the call. */
  predicate AnswersWithNull(m: Message, call: string) {
    IsResponse(m) && IdText(m.id) == call && m.error.NullError?
  }

  /** What makes the handler throw: an id that cannot be printed, or a null error member on the answer to
      a pending call. */
  predicate Throws(s: State, m: Message) {
    && !IsNotification(m) && !IsServerRequest(m) && IsMessage(m)
    && (m.id.UnprintableId? || (IsResponse(m) && IdText(m.id) in s.pending && m.error.NullError?))
  }

  function ResponseOutcome(m: Message): Outcome
    requires m.Object?
  {
    if !m.error.NoError? then RejectedByPeer(m.content) else Resolved(m.content)
  }

  const INITIAL := State(map[], {}, 1, false, map[], {}, false, [])

  /** One call leaves the table, its watchdog is cleared and its promise settles. */
  function Settle(s: State, call: string, outcome: Outcome): State {
    s.(pending := s.pending - {call}, armed := s.armed - {call},
       settled := s.settled[call := outcome], twice := s.twice || call in s.settled)
  }

  /** One call leaves the table and its watchdog is cleared, but its promise never settles. */
  function Lose(s: State, call: string): State {
    s.(pending := s.pending - {call}, armed := s.armed - {call}, lost := s.lost + {call})
  }

  function FailEach(s: State, outcome: Outcome): State {
    s.(pending := map[], armed := s.armed - s.pending.Keys,
       settled := s.settled + (map call | call in s.pending :: outcome),
       twice := s.twice || s.pending.Keys * s.settled.Keys != {})
  }

  function Handle(s: State, m: Message): State {
    if IsNotification(m) then s.(notes := s.notes + [Notified])
    else if IsServerRequest(m) then s.(notes := s.notes + [AskedByPeer(m.id)])
    else if !IsMessage(m) then s.(notes := s.notes + [Malformed])
    else if m.id.NullId? || m.id.NoId? then s.(notes := s.notes + [ResponseWithoutId])
    else if m.id.UnprintableId? || IdText(m.id) !in s.pending then s
    else if m.error.NullError? then Lose(s, IdText(m.id))
    else Settle(s, IdText(m.id), ResponseOutcome(m))
  }

  function Next(s: State, e: Event): State {
    match e
    case Request(verb) =>
      if s.closed then s
      else s.(pending := s.pending[Decimal(s.nextId) := verb], armed := s.armed + {Decimal(s.nextId)},
          nextId := s.nextId + 1)
    case TimerFires(call) => if call in s.armed then Settle(s, call, TimedOut) else s
    case SendFails(call, reason) => if call in s.pending then Settle(s, call, SendFailed(reason)) else s
    case Receive(m) => Handle(s, m)
    case TransportFails(reason) => FailEach(s.(notes := s.notes + [TransportError(reason)]), TransportFailed(reason))
    case TransportCloses(reason) => FailEach(s, TransportFailed(reason))
    case Close => FailEach(s.(closed := true), ClientClosed)
  }

  function Run(s: State, events: seq<Event>): State {
    if events == [] then s else Next(Run(s, events[..|events| - 1]), events[|events| - 1])
  }

  /** Every issued id is either pending, with its watchdog armed, or settled, or lost, and no call settled twice. */
  ghost predicate Inv(s: State) {
    && s.nextId >= 1
    && s.pending.Keys + s.settled.Keys + s.lost == Issued(s.nextId)
    && s.pending.Keys !! s.settled.Keys !! s.lost
    && s.armed == s.pending.Keys
    && !s.twice
    && (s.closed ==> s.pending == map[])
  }

  lemma IssueNext(nextId: nat)
    requires nextId >= 1
    ensures Decimal(nextId) !in Issued(nextId)
    ensures Issued(nextId + 1) == Issued(nextId) + {Decimal(nextId)}
  {
    forall k | 1 <= k < nextId ensures Decimal(k) != Decimal(nextId) {
      if Decimal(k) == Decimal(nextId) { DecimalInjective(k, nextId); }
    }
    forall id ensures id in Issued(nextId + 1) <==> id in Issued(nextId) + {Decimal(nextId)} {
      if id in Issued(nextId + 1) {
        var k :| 1 <= k < nextId + 1 && Decimal(k) == id;
      }
    }
  }

  lemma SettleKeepsInv(s: State, call: string, outcome: Outcome)
    requires Inv(s) && call in s.pending
    ensures Inv(Settle(s, call, outcome))
  {
    var t := Settle(s, call, outcome);
    assert t.pending.Keys == s.pending.Keys - {call};
    assert t.settled.Keys == s.settled.Keys + {call};
  }

  lemma LoseKeepsInv(s: State, call: string)
    requires Inv(s) && call in s.pending
    ensures Inv(Lose(s, call))
  {
    assert Lose(s, call).pending.Keys == s.pending.Keys - {call};
  }

  lemma FailEachKeepsInv(s: State, outcome: Outcome)
    requires Inv(s.(closed := false))
    ensures Inv(FailEach(s, outcome))
  {
    var t := FailEach(s, outcome);
    assert t.settled.Keys == s.settled.Keys + s.pending.Keys;
  }

  ghost predicate InFlight(s: State) {
    s.pending.Keys !! s.settled.Keys && s.armed == s.pending.Keys && !s.twice
  }

  lemma SettleKeepsInFlight(s: State, call: string, outcome: Outcome)
    requires InFlight(s) && call in s.pending
    ensures InFlight(Settle(s, call, outcome))
  {
    assert Settle(s, call, outcome).pending.Keys == s.pending.Keys - {call};
    assert Settle(s, call, outcome).settled.Keys == s.settled.Keys + {call};
  }

  /** Settling one call first and then the others comes to the same. */
  lemma FailOneFirst(s: State, call: string, outcome: Outcome)
    requires InFlight(s) && call in s.pending
    ensures FailEach(Settle(s, call, outcome), outcome) == FailEach(s, outcome)
  {
    SettleKeepsInFlight(s, call, outcome);
    SameSettlements(s.settled, s.pending, call, outcome);
    var t := Settle(s, call, outcome);
    assert t.pending.Keys == s.pending.Keys - {call};
    assert s.pending.Keys * s.settled.Keys == {} && t.pending.Keys * t.settled.Keys == {};
    assert t.armed - t.pending.Keys == {} == s.armed - s.pending.Keys;
  }

  lemma SameSettlements(settled: map<string, Outcome>, pending: map<string, string>, call: string, outcome: Outcome)
    requires call in pending
    ensures settled[call := outcome] + (map c | c in pending - {call} :: outcome)
              == settled + (map c | c in pending :: outcome)
  {
  }

  lemma NothingToFail(s: State, outcome: Outcome)
    requires s.pending == map[]
    ensures FailEach(s, outcome) == s
  {
    assert FailEach(s, outcome).settled == s.settled;
  }

  lemma ReceiveKeepsInv(s: State, m: Message)
    requires Inv(s)
    ensures Inv(Handle(s, m))
  {
    if IsResponse(m) && IdText(m.id) in s.pending {
      LoseKeepsInv(s, IdText(m.id));
      SettleKeepsInv(s, IdText(m.id), ResponseOutcome(m));
    }
  }

  lemma StepKeepsInv(s: State, e: Event)
    requires Inv(s)
    ensures Inv(Next(s, e))
  {
    match e
    case Request(verb) => IssueNext(s.nextId);
    case TimerFires(call) => if call in s.armed { SettleKeepsInv(s, call, TimedOut); }
    case SendFails(call, reason) => if call in s.pending { SettleKeepsInv(s, call, SendFailed(reason)); }
    case Receive(m) => ReceiveKeepsInv(s, m);
    case TransportFails(reason) =>
      FailEachKeepsInv(s.(notes := s.notes + [TransportError(reason)]), TransportFailed(reason));
    case TransportCloses(reason) => FailEachKeepsInv(s, TransportFailed(reason));
    case Close => FailEachKeepsInv(s.(closed := true), ClientClosed);
  }

  lemma {:induction false} RunKeepsInv(events: seq<Event>)
    ensures Inv(Run(INITIAL, events))
  {
    if events == [] {
      assert Issued(1) == {};
    } else {
      RunKeepsInv(events[..|events| - 1]);
      StepKeepsInv(Run(INITIAL, events[..|events| - 1]), events[|events| - 1]);
    }
  }

  lemma SettledStep(s: State, e: Event)
    requires Inv(s)
    ensures forall call | call in s.settled :: call in Next(s, e).settled && Next(s, e).settled[call] == s.settled[call]
  {
  }

  /** A settled call keeps what it got, whatever happens afterwards. */
  lemma {:induction false} SettledForGood(s: State, events: seq<Event>)
    requires Inv(s)
    ensures Inv(Run(s, events))
    ensures forall call | call in s.settled ::
              call in Run(s, events).settled && Run(s, events).settled[call] == s.settled[call]
  {
    if events != [] {
      SettledForGood(s, events[..|events| - 1]);
      var t := Run(s, events[..|events| - 1]);
      StepKeepsInv(t, events[|events| - 1]);
      SettledStep(t, events[|events| - 1]);
      assert Run(s, events) == Next(t, events[|events| - 1]);
    }
  }

  /** After `close` nothing is pending, nothing becomes pending and nothing settles or is lost any more. */
  lemma {:induction false} ClosedForGood(s: State, events: seq<Event>)
    requires Inv(s) && s.closed
    ensures var t := Run(s, events);
            && Inv(t) && t.closed && t.pending == map[]
            && t.settled == s.settled && t.lost == s.lost && t.nextId == s.nextId
  {
    if events != [] {
      ClosedForGood(s, events[..|events| - 1]);
      StepKeepsInv(Run(s, events[..|events| - 1]), events[|events| - 1]);
    }
  }

  /** A message touches the call table exactly when it is an answer to a pending call, and then only that call: it
      settles it, unless its error member is null, which drops it unsettled. */
  lemma ResponseSettlesOwnCall(s: State, m: Message)
    requires Inv(s)
    ensures var t := Handle(s, m);
            if IsResponse(m) && IdText(m.id) in s.pending
            then
              var call := IdText(m.id);
              && t.pending == s.pending - {call} && t.armed == s.armed - {call}
              && match m.error
                 case NoError => t.settled == s.settled[call := Resolved(m.content)] && t.lost == s.lost
                 case ErrorValue => t.settled == s.settled[call := RejectedByPeer(m.content)] && t.lost == s.lost
                 case NullError => t.settled == s.settled && t.lost == s.lost + {call}
            else t.pending == s.pending && t.armed == s.armed && t.settled == s.settled && t.lost == s.lost
  {
  }

  // ------------------------------------------------------------------ the handler by the fields of a message

  predicate PrintsAs(id: WireId, text: string) {
    match id
    case TextId(t) => t == text
    case OtherId(t) => t == text
    case NumberId(n) => text == if n >= 0 then Decimal(n) else ['-'] + Decimal(-n)
    case _ => false
  }

  /** Version 2, no method, the id of the call, and a result or an error member. */
  predicate Answers(m: Message, call: string) {
    && m.Object? && m.isVersion2 && m.verb == NoMethod
    && PrintsAs(m.id, call) && (m.hasResult || m.error != NoError)
  }

  /** Only an answer to a pending call touches the call table.  An error value rejects the call, with or without a
      result member; a result alone resolves it; a null error member drops it. */
  ghost predicate TableLaw(s: State, m: Message, t: State) {
    && (forall call | call in s.pending && Answers(m, call) ::
          && t.pending == s.pending - {call} && t.armed == s.armed - {call}
          && (m.error == ErrorValue ==> t.settled == s.settled[call := RejectedByPeer(m.content)] && t.lost == s.lost)
          && (m.error == NoError ==> t.settled == s.settled[call := Resolved(m.content)] && t.lost == s.lost)
          && (m.error == NullError ==> t.settled == s.settled && t.lost == s.lost + {call}))
    && ((forall call | call in s.pending :: !Answers(m, call)) ==>
          t.pending == s.pending && t.armed == s.armed && t.settled == s.settled && t.lost == s.lost)
    && t.nextId == s.nextId && t.closed == s.closed
  }

  predicate Adds(before: seq<Note>, after: seq<Note>, note: Note) {
    |after| == |before| + 1 && after[..|before|] == before && after[|before|] == note
  }

  /** A text method without an id notifies, any method with an id asks; of the others, one of another version or with
      neither result nor error is malformed, one without an id or with a null one has no id, and the rest is silent. */
  ghost predicate NoteLaw(s: State, m: Message, t: State) {
    var notifies := m.Object? && m.isVersion2 && m.verb.MethodName? && m.id == NoId;
    var asks := m.Object? && m.verb != NoMethod && m.id != NoId;
    var formed := m.Object? && m.isVersion2 && (m.hasResult || m.error != NoError);
    var anonymous := m.Object? && (m.id == NoId || m.id == NullId);
    && (Adds(s.notes, t.notes, Notified) <==> notifies)
    && (m.Object? ==> (Adds(s.notes, t.notes, AskedByPeer(m.id)) <==> asks))
    && (Adds(s.notes, t.notes, Malformed) <==> !notifies && !asks && !formed)
    && (Adds(s.notes, t.notes, ResponseWithoutId) <==> !notifies && !asks && formed && anonymous)
    && (t.notes == s.notes <==> !asks && formed && !anonymous)
  }

  ghost predicate ThrowLaw(s: State, m: Message, threw: bool) {
    threw <==>
      && m.Object? && m.isVersion2 && m.verb == NoMethod && (m.hasResult || m.error != NoError)
      && (m.id == UnprintableId || (m.error == NullError && exists call :: call in s.pending && PrintsAs(m.id, call)))
  }

  lemma TextPrints(id: WireId, text: string)
    ensures PrintsAs(id, text) <==> id != NoId && id != NullId && id != UnprintableId && IdText(id) == text
  {
  }

  lemma AnswersIff(m: Message, call: string)
    ensures Answers(m, call) <==> IsResponse(m) && IdText(m.id) == call
  {
    if m.Object? { TextPrints(m.id, call); }
  }

  lemma HandleSettles(s: State, m: Message)
    ensures TableLaw(s, m, Handle(s, m))
  {
    forall call | Answers(m, call) ensures IsResponse(m) && IdText(m.id) == call {
      AnswersIff(m, call);
    }
    if IsResponse(m) { AnswersIff(m, IdText(m.id)); }
  }

  lemma HandleNotes(s: State, m: Message)
    ensures NoteLaw(s, m, Handle(s, m))
  {
    if m.Object? {
      forall call { TextPrints(m.id, call); }
    }
  }

  lemma HandleThrows(s: State, m: Message)
    ensures ThrowLaw(s, m, Throws(s, m))
  {
    if m.Object? {
      forall call { TextPrints(m.id, call); }
    }
  }

  /** What each event leaves a pending call with. */
  predicate Decides(e: Event, call: string, outcome: Outcome) {
    match e
    case Request(_) => false
    case TimerFires(c) => c == call && outcome == TimedOut
    case SendFails(c, reason) => c == call && outcome == SendFailed(reason)
    case TransportFails(reason) => outcome == TransportFailed(reason)
    case TransportCloses(reason) => outcome == TransportFailed(reason)
    case Close => outcome == ClientClosed
    case Receive(m) =>
      && Answers(m, call)
      && ((m.error == ErrorValue && outcome == RejectedByPeer(m.content))
          || (m.error == NoError && outcome == Resolved(m.content)))
  }

  predicate Got(s: State, call: string, outcome: Outcome) {
    call in s.settled && s.settled[call] == outcome
  }

  ghost predicate DecidedAt(events: seq<Event>, i: nat, call: string, outcome: Outcome) {
    i < |events| && call in Run(INITIAL, events[..i]).pending && Decides(events[i], call, outcome)
  }

  lemma ReceivedStep(s: State, m: Message, call: string, outcome: Outcome)
    requires Inv(s)
    ensures Got(Handle(s, m), call, outcome)
            <==> Got(s, call, outcome) || (call in s.pending && Decides(Receive(m), call, outcome))
  {
    AnswersIff(m, call);
  }

  lemma DecidedStep(s: State, e: Event, call: string, outcome: Outcome)
    requires Inv(s)
    ensures Got(Next(s, e), call, outcome)
            <==> Got(s, call, outcome) || (call in s.pending && Decides(e, call, outcome))
  {
    if e.Receive? { ReceivedStep(s, e.message, call, outcome); }
  }

  /** Over every run: a call ends with an outcome exactly when, while it was pending, an event came that decides
      it so. */
  lemma {:induction false} SettledIff(events: seq<Event>, call: string, outcome: Outcome)
    ensures Got(Run(INITIAL, events), call, outcome) <==> exists i :: DecidedAt(events, i, call, outcome)
  {
    if events == [] {
      forall i ensures !DecidedAt(events, i, call, outcome) {}
    } else {
      var shorter, n: nat := events[..|events| - 1], |events| - 1;
      RunKeepsInv(shorter);
      SettledIff(shorter, call, outcome);
      DecidedStep(Run(INITIAL, shorter), events[n], call, outcome);
      assert events[..n] == shorter;
      forall i: nat | i < n ensures DecidedAt(events, i, call, outcome) <==> DecidedAt(shorter, i, call, outcome) {
        assert events[..i] == shorter[..i];
      }
      if i :| DecidedAt(shorter, i, call, outcome) { assert DecidedAt(events, i, call, outcome); }
      if i :| DecidedAt(events, i, call, outcome) { assert i == n || DecidedAt(shorter, i, call, outcome); }
      assert call in Run(INITIAL, shorter).pending && Decides(events[n], call, outcome)
             <==> DecidedAt(events, n, call, outcome);
    }
  }

  // ------------------------------------------------------------------ calls that never settle

  /** Event `i` answered `call`, which was pending, with a null error member. */
  ghost predicate LostAt(events: seq<Event>, i: nat, call: string) {
    && i < |events| && events[i].Receive? && AnswersWithNull(events[i].message, call)
    && call in Run(INITIAL, events[..i]).pending
  }

  lemma LostStep(s: State, e: Event, call: string)
    requires Inv(s)
    ensures call in Next(s, e).lost
            <==> call in s.lost || (e.Receive? && AnswersWithNull(e.message, call) && call in s.pending)
  {
  }

  lemma LostInPrefix(events: seq<Event>, i: nat, call: string)
    requires i + 1 < |events|
    ensures LostAt(events, i, call) <==> LostAt(events[..|events| - 1], i, call)
  {
    assert events[..i] == events[..|events| - 1][..i];
  }

  /** A call is lost exactly when it was answered with a null error member while it was pending. */
  lemma {:induction false} LostIff(events: seq<Event>, call: string)
    ensures call in Run(INITIAL, events).lost <==> exists i :: LostAt(events, i, call)
  {
    if events == [] {
      forall i ensures !LostAt(events, i, call) {}
    } else {
      var shorter, n: nat := events[..|events| - 1], |events| - 1;
      RunKeepsInv(shorter);
      LostIff(shorter, call);
      LostStep(Run(INITIAL, shorter), events[n], call);
      assert LostAt(events, n, call) <==> call in Run(INITIAL, events).lost && call !in Run(INITIAL, shorter).lost by {
        assert events[..n] == shorter;
        PendingIsNotLost(shorter, call);
      }
      forall i: nat | i < n ensures LostAt(events, i, call) <==> LostAt(shorter, i, call) {
        LostInPrefix(events, i, call);
      }
      if i :| LostAt(shorter, i, call) { assert LostAt(events, i, call); }
      if i :| LostAt(events, i, call) { assert i == n || LostAt(shorter, i, call); }
    }
  }

  lemma PendingIsNotLost(events: seq<Event>, call: string)
    ensures call in Run(INITIAL, events).pending ==> call !in Run(INITIAL, events).lost
  {
    RunKeepsInv(events);
  }

  /** The exact condition: over any run every issued id is pending or settled if and only if no pending call was
      answered with a null error member. */
  lemma {:induction false} AccountedForIff(events: seq<Event>)
    ensures var s := Run(INITIAL, events);
            s.pending.Keys + s.settled.Keys == Issued(s.nextId) <==> forall i, call :: !LostAt(events, i, call)
  {
    var s := Run(INITIAL, events);
    RunKeepsInv(events);
    forall i, call ensures LostAt(events, i, call) ==> call in s.lost {
      if LostAt(events, i, call) { LostIff(events, call); }
    }
    if s.lost != {} {
      var call :| call in s.lost;
      LostIff(events, call);
      var i :| LostAt(events, i, call);
      assert call !in s.pending.Keys + s.settled.Keys && call in Issued(s.nextId);
    } else {
      assert s.pending.Keys + s.settled.Keys + s.lost == s.pending.Keys + s.settled.Keys;
    }
  }

  lemma LostStays(s: State, e: Event, call: string)
    requires Inv(s) && call in s.lost
    ensures call in Next(s, e).lost
  {
  }

  /** A lost call is not pending, has no watchdog and never settles, whatever happens afterwards. */
  lemma {:induction false} LostForGood(s: State, events: seq<Event>, call: string)
    requires Inv(s) && call in s.lost
    ensures var t := Run(s, events);
            Inv(t) && call in t.lost && call !in t.pending && call !in t.armed && call !in t.settled
  {
    if events != [] {
      var t := Run(s, events[..|events| - 1]);
      LostForGood(s, events[..|events| - 1], call);
      StepKeepsInv(t, events[|events| - 1]);
      LostStays(t, events[|events| - 1], call);
    }
  }

  /** The first call, answered with both a result and a null error member. */
  lemma NullErrorLosesCall(verb: string, content: string) returns (events: seq<Event>)
    ensures |events| == 2 && events[0] == Event.Request(verb)
    ensures events[1] == Receive(Object(true, TextId("1"), NoMethod, true, NullError, content))
    ensures LostAt(events, 1, "1") && "1" in Run(INITIAL, events).lost
  {
    var asked := [Event.Request(verb)];
    var e := Receive(Object(true, TextId("1"), NoMethod, true, NullError, content));
    events := asked + [e];
    assert asked[..0] == [] && events[..1] == asked;
    assert Decimal(1) == "1";
    assert Run(INITIAL, asked) == Next(INITIAL, Event.Request(verb));
    assert Run(INITIAL, events) == Next(Run(INITIAL, asked), e);
  }

  /** The event that can have settled a call in this way. */
  predicate Causes(e: Event, call: string, outcome: Outcome) {
    match outcome
    case Resolved(_) =>
      e.Receive? && IsResponse(e.message) && IdText(e.message.id) == call && ResponseOutcome(e.message) == outcome
    case RejectedByPeer(_) =>
      e.Receive? && IsResponse(e.message) && IdText(e.message.id) == call && ResponseOutcome(e.message) == outcome
    case TimedOut => e == TimerFires(call)
    case SendFailed(reason) => e == SendFails(call, reason)
    case TransportFailed(reason) => e == TransportFails(reason) || e == TransportCloses(reason)
    case ClientClosed => e == Close
  }

  lemma OutcomeStep(s: State, e: Event, call: string)
    requires Inv(s) && call in Next(s, e).settled && call !in s.settled
    ensures call in s.pending && Causes(e, call, Next(s, e).settled[call])
  {
  }

  /** Over every run, each settled call was settled, while it was pending, by an event of its own: an answer sent with
      its id, its timer, its failed send, or the end of the transport or of the client. */
  lemma {:induction false} EveryOutcomeHasItsCause(events: seq<Event>, call: string) returns (i: nat)
    requires call in Run(INITIAL, events).settled
    ensures i < |events| && call in Run(INITIAL, events[..i]).pending
    ensures Causes(events[i], call, Run(INITIAL, events).settled[call])
  {
    assert events != [];
    var shorter, e := events[..|events| - 1], events[|events| - 1];
    var s := Run(INITIAL, shorter);
    RunKeepsInv(shorter);
    if call in s.settled {
      i := EveryOutcomeHasItsCause(shorter, call);
      SettledStep(s, e);
      assert events[..i] == shorter[..i];
    } else {
      i := |events| - 1;
      OutcomeStep(s, e, call);
    }
  }

  class JsonRpcClient {
    var pending: map<string, string>
    var armed: set<string>
    var nextId: nat
    var closed: bool
    ghost var settled: map<string, Outcome>
    ghost var lost: set<string>
    ghost var twice: bool
    ghost var notes: seq<Note>

    constructor ()
      ensures Abs() == INITIAL && Inv(Abs())
    {
      pending, armed, nextId, closed := map[], {}, 1, false;
      settled, lost, twice, notes := map[], {}, false, [];
      new;
      RunKeepsInv([]);
    }

    ghost function Abs(): State
      reads this
    {
      State(pending, armed, nextId, closed, settled, lost, twice, notes)
    }

    /** The id the request went out with, or nothing when the client is closed. */
    method Request(verb: string) returns (id: Option<string>)
      requires Inv(Abs())
      modifies this
      ensures Inv(Abs()) && Abs() == Next(old(Abs()), Event.Request(verb))
      ensures id.None? <==> old(closed)
      ensures id.Some? ==>
                && id.value == Decimal(old(nextId)) && nextId == old(nextId) + 1
                && pending == old(pending)[id.value := verb] && armed == old(armed) + {id.value}
      ensures id.Some? ==> id.value !in old(pending) && id.value !in old(settled) && id.value !in old(lost)
    {
      if closed { return None; }
      StepKeepsInv(Abs(), Event.Request(verb));
      IssueNext(nextId);
      var call := Decimal(nextId);
      nextId := nextId + 1;
      armed := armed + {call};
      pending := pending[call := verb];
      return Some(call);
    }

    ghost method Deliver(call: string, outcome: Outcome)
      modifies this`settled, this`twice
      ensures settled == old(settled)[call := outcome] && twice == (old(twice) || call in old(settled))
    {
      twice := twice || call in settled;
      settled := settled[call := outcome];
    }

    /** The watchdog of a call, which is armed exactly while the call is pending. */
    method OnTimer(call: string)
      requires Inv(Abs()) && call in armed
      modifies this
      ensures Inv(Abs()) && Abs() == Next(old(Abs()), TimerFires(call))
    {
      StepKeepsInv(Abs(), TimerFires(call));
      armed := armed - {call};
      pending := pending - {call};
      Deliver(call, TimedOut);
    }

    method OnSendFailed(call: string, reason: string)
      requires Inv(Abs())
      modifies this
      ensures Inv(Abs()) && Abs() == Next(old(Abs()), SendFails(call, reason))
    {
      StepKeepsInv(Abs(), SendFails(call, reason));
      if call !in pending { return; }
      pending := pending - {call};
      armed := armed - {call};
      Deliver(call, SendFailed(reason));
    }

    /** When it throws over a null error member, the call it was about is gone already. */
    method HandleMessage(m: Message) returns (threw: bool)
      requires Inv(Abs())
      modifies this
      ensures Inv(Abs()) && Abs() == Next(old(Abs()), Receive(m))
      ensures threw <==> Throws(old(Abs()), m)
      ensures TableLaw(old(Abs()), m, Abs())
      ensures NoteLaw(old(Abs()), m, Abs())
      ensures ThrowLaw(old(Abs()), m, threw)
    {
      StepKeepsInv(Abs(), Receive(m));
      HandleSettles(Abs(), m);
      HandleNotes(Abs(), m);
      HandleThrows(Abs(), m);
      threw := false;
      if IsNotification(m) {
        notes := notes + [Notified];
      } else if m.Object? && !m.verb.NoMethod? && !m.id.NoId? {
        notes := notes + [AskedByPeer(m.id)];
      } else if !IsMessage(m) {
        notes := notes + [Malformed];
      } else if m.id.NullId? || m.id.NoId? {
        notes := notes + [ResponseWithoutId];
      } else if m.id.UnprintableId? {
        threw := true;
      } else if IdText(m.id) in pending {
        threw := Take(IdText(m.id), m);
      }
      assert Abs() == Handle(old(Abs()), m) && (threw <==> Throws(old(Abs()), m));
    }

    /** Drops the answered call and settles it, unless there is no error to read where one is announced. */
    method Take(call: string, m: Message) returns (threw: bool)
      requires IsResponse(m) && call == IdText(m.id) && call in pending
      modifies this`pending, this`armed, this`settled, this`twice, this`lost
      ensures Abs() == Handle(old(Abs()), m)
      ensures threw <==> Throws(old(Abs()), m)
    {
      threw := m.error.NullError?;
      pending := pending - {call};
      armed := armed - {call};
      match m.error
      case NoError => Deliver(call, Resolved(m.content));
      case ErrorValue => Deliver(call, RejectedByPeer(m.content));
      case NullError => lost := lost + {call};
    }

    /** Rejects every call in flight, one after the other. */
    method FailAll(outcome: Outcome)
      requires Inv(Abs().(closed := false))
      modifies this`pending, this`armed, this`settled, this`twice
      ensures Inv(Abs()) && Abs() == FailEach(old(Abs()), outcome)
    {
      FailEachKeepsInv(Abs(), outcome);
      while pending.Keys != {}
        invariant InFlight(Abs()) && FailEach(Abs(), outcome) == FailEach(old(Abs()), outcome)
        decreases pending.Keys
      {
        var call :| call in pending.Keys;
        FailOneFirst(Abs(), call, outcome);
        FailOne(call, outcome);
      }
      NothingToFail(Abs(), outcome);
    }

    method FailOne(call: string, outcome: Outcome)
      requires InFlight(Abs()) && call in pending
      modifies this`pending, this`armed, this`settled, this`twice
      ensures InFlight(Abs()) && Abs() == Settle(old(Abs()), call, outcome)
    {
      SettleKeepsInFlight(Abs(), call, outcome);
      pending := pending - {call};
      armed := armed - {call};
      Deliver(call, outcome);
    }

    method OnTransportError(reason: string)
      requires Inv(Abs())
      modifies this
      ensures Inv(Abs()) && Abs() == Next(old(Abs()), TransportFails(reason))
      ensures notes == old(notes) + [TransportError(reason)]
    {
      notes := notes + [TransportError(reason)];
      FailAll(TransportFailed(reason));
    }

    method OnTransportClose(reason: string)
      requires Inv(Abs())
      modifies this
      ensures Inv(Abs()) && Abs() == Next(old(Abs()), TransportCloses(reason))
    {
      FailAll(TransportFailed(reason));
    }

    method Close()
      requires Inv(Abs())
      modifies this
      ensures Inv(Abs()) && Abs() == Next(old(Abs()), Event.Close)
      ensures closed && pending == map[]
    {
      closed := true;
      FailAll(ClientClosed);
    }
  }
}
