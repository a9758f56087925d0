/** What the claims on a run are worth: over every history of `RunOwnership`, which writes found which claim. */
module ClaimSafety {
  import opened Wrappers
  import opened RunStates
  import opened RunClaims
  import opened RunOwnership

  function ClaimBefore(log: seq<Write>, i: nat): Option<Marker>
    requires i <= |log|
  {
    if i == 0 then None else log[i - 1].claim
  }

  /** What an accepted write may do to the claim it found. */
  predicate LegalEntry(found: Option<Marker>, e: Write) {
    match e.kind
    case Claimed =>
      IsFree(found) && e.claim.Some? && e.claim.value.at > 0 && e.claim.value.attempt == AttemptOf(found) + 1
    case Enqueued => e.claim.Some? && e.claim.value.at == 0 && e.claim.value.attempt == 0
    case Released => e.claim.Some? && e.claim.value.at == 0
    case Reclaimed => !IsFree(found) && e.claim == Some(ReclaimMarker(found.value))
    case _ => e.claim == found
  }

  predicate LegalAt(log: seq<Write>, i: nat)
    requires i < |log|
  {
    LegalEntry(ClaimBefore(log, i), log[i])
  }

  ghost predicate LegalLog(log: seq<Write>) {
    forall i: nat {:trigger LegalAt(log, i)} | i < |log| :: LegalAt(log, i)
  }

  predicate BySession(log: seq<Write>, version: nat) {
    2 <= version <= |log| + 1 && (log[version - 2].kind.Started? || log[version - 2].kind.Persisted?)
  }

  /** Every copy of the row carries the claim stored at its version; and only at a version that a
      session wrote can a copy of the current version differ from the stored row. */
  ghost predicate ClaimInvOf(w: World, a: Actor) {
    var r := HeldRow(a);
    && 1 <= r.version <= |w.log| + 1
    && r.claim == ClaimBefore(w.log, r.version - 1)
    && (!a.Reading? ==> BySession(w.log, r.version))
    && (a.Reading? && r.version == w.row.version && !BySession(w.log, r.version) ==> r == w.row)
  }

  ghost predicate ClaimInv(w: World) {
    !w.rejected ==>
      && LegalLog(w.log)
      && w.row.claim == ClaimBefore(w.log, |w.log|)
      && forall id | id in w.actors :: ClaimInvOf(w, w.actors[id])
  }

  lemma AppendKeepsLegal(log: seq<Write>, log': seq<Write>)
    requires LegalLog(log) && |log'| == |log| + 1 && log'[..|log|] == log
    requires LegalEntry(ClaimBefore(log, |log|), log'[|log|])
    ensures LegalLog(log')
  {
    forall i: nat | i < |log'| ensures LegalAt(log', i) {
      assert ClaimBefore(log', i) == ClaimBefore(log, i);
      if i < |log| {
        assert LegalAt(log, i) && log'[i] == log[i];
      }
    }
  }

  /** An accepted write appends one legal entry; rows held by others keep agreeing with the log. */
  lemma AppendKeepsClaimInv(w: World, w': World, id: Id)
    requires Inv(w) && ClaimInv(w) && !w'.rejected && !w.rejected && Inv(w')
    requires |w'.log| == |w.log| + 1 && w'.log[..|w.log|] == w.log
    requires LegalEntry(w.row.claim, w'.log[|w.log|]) && w'.row.claim == w'.log[|w.log|].claim
    requires forall j | j in w'.actors && j != id :: j in w.actors && w'.actors[j] == w.actors[j]
    requires id in w'.actors ==> HeldRow(w'.actors[id]) == w'.row
    requires id in w'.actors && !w'.actors[id].Reading? ==> BySession(w'.log, w'.row.version)
    ensures ClaimInv(w')
  {
    AppendKeepsLegal(w.log, w'.log);
    forall j | j in w'.actors ensures ClaimInvOf(w', w'.actors[j]) {
      if j != id {
        assert ClaimInvOf(w, w.actors[j]);
        var v := HeldRow(w.actors[j]).version;
        assert ClaimBefore(w'.log, v - 1) == ClaimBefore(w.log, v - 1);
        assert v >= 2 ==> w'.log[v - 2] == w.log[v - 2];
      }
    }
  }

  lemma CompareAndSetKeepsClaimInv(w: World, id: Id, read: Row, updated: Row, kind: Kind, next: Option<Actor>)
    requires Inv(w) && ClaimInv(w) && IsReading(w, id) && read == w.actors[id].row
    requires updated.version == read.version + 1 && LegalEntry(read.claim, Write(id, kind, updated.claim))
    requires next == None || next == Some(Reading(updated)) || (next == Some(Starting(updated)) && kind.Started?)
    ensures ClaimInv(CompareAndSet(w, id, read, updated, kind, next))
  {
    CompareAndSetKeepsInv(w, id, read, updated, kind, next);
    var w' := CompareAndSet(w, id, read, updated, kind, next);
    if !w.rejected {
      assert ClaimInvOf(w, w.actors[id]);
      if w.row.version == read.version {
        AppendKeepsClaimInv(w, w', id);
      } else {
        assert forall j | j in w'.actors :: w'.actors[j] == w.actors[j];
      }
    }
  }

  /** A step that neither appends to the log nor changes the stored row's claim or version. */
  lemma QuietStepKeepsClaimInv(w: World, w': World)
    requires Inv(w) && ClaimInv(w) && (w.rejected ==> w'.rejected)
    requires w'.log == w.log && w'.row.claim == w.row.claim && w'.row.version == w.row.version
    requires !w'.rejected ==> forall j | j in w'.actors :: KeepsHeld(w, w', j)
    ensures ClaimInv(w')
  {
    if !w'.rejected {
      forall j | j in w'.actors ensures ClaimInvOf(w', w'.actors[j]) {
        if j in w.actors { assert ClaimInvOf(w, w.actors[j]); }
      }
    }
  }

  ghost predicate KeepsHeld(w: World, w': World, j: Id)
    requires j in w'.actors
  {
    (j in w.actors && SameHeld(w, w', w.actors[j], w'.actors[j])) || ClaimInvOf(w', w'.actors[j])
  }

  /** The same kind of actor holding the same version and claim; a reader still holds the stored row if it did. */
  ghost predicate SameHeld(w: World, w': World, a: Actor, a': Actor) {
    && HeldRow(a').version == HeldRow(a).version && HeldRow(a').claim == HeldRow(a).claim
    && a'.Reading? == a.Reading?
    && (a.Reading? ==> a' == a && (w'.row == w.row || BySession(w.log, w.row.version)))
  }

  lemma PersistRowKeepsClaimInv(w: World, id: Id)
    requires Inv(w) && ClaimInv(w) && Enabled(w, PersistRow(id))
    ensures ClaimInv(Apply(w, PersistRow(id)))
  {
    SessionStepKeepsInv(w, PersistRow(id));
    var w' := Apply(w, PersistRow(id));
    if !w'.rejected {
      assert ActorInv(w, id, w.actors[id]) && ClaimInvOf(w, w.actors[id]);
      AppendKeepsClaimInv(w, w', id);
    }
  }

  lemma SessionStepKeepsClaimInv(w: World, step: Step)
    requires Inv(w) && ClaimInv(w) && Enabled(w, step)
    requires step.AdvanceSession? || step.PersistRow? || step.PersistCounters? || step.PersistState?
    ensures ClaimInv(Apply(w, step))
  {
    if step.PersistRow? {
      PersistRowKeepsClaimInv(w, step.id);
    } else if !Apply(w, step).rejected && !w.rejected {
      assert ActorInv(w, step.id, w.actors[step.id]) && ClaimInvOf(w, w.actors[step.id]);
      QuietStepKeepsClaimInv(w, Apply(w, step));
    }
  }

  lemma MarkKeepsClaimInv(w: World, step: Step)
    requires Inv(w) && ClaimInv(w) && Enabled(w, step)
    requires step.Enqueue? || step.Claim? || step.Release? || step.Reclaim?
    ensures ClaimInv(Apply(w, step))
  {
    var row := w.actors[step.id].row;
    match step
    case Enqueue(id, action) =>
      CompareAndSetKeepsClaimInv(w, id, row, Marked(row, EnqueueMarker(action)), Enqueued, None);
    case Claim(id, worker, now) =>
      CompareAndSetKeepsClaimInv(w, id, row, Marked(row, ClaimMarker(row, worker, now)), Claimed, None);
    case Release(id, attempt, action) =>
      CompareAndSetKeepsClaimInv(w, id, row, Marked(row, ReleaseMarker(attempt, action)), Released, None);
    case Reclaim(id, _, _) =>
      CompareAndSetKeepsClaimInv(w, id, row, Marked(row, ReclaimMarker(row.claim.value)), Reclaimed, None);
  }

  lemma RowStepKeepsClaimInv(w: World, step: Step)
    requires Inv(w) && ClaimInv(w) && Enabled(w, step)
    requires step.StartWrite? || step.AdvanceRow?
    ensures ClaimInv(Apply(w, step))
  {
    var row := w.actors[step.id].row;
    if step.StartWrite? {
      var updated := row.(version := row.version + 1, status := Initializing);
      CompareAndSetKeepsClaimInv(w, step.id, row, updated, Started, Some(Starting(updated)));
    } else {
      var updated := row.(version := row.version + 1, status := step.to);
      CompareAndSetKeepsClaimInv(w, step.id, row, updated, Hopped, Some(Reading(updated)));
    }
  }

  lemma StepKeepsClaimInv(w: World, step: Step)
    requires Inv(w) && ClaimInv(w) && Enabled(w, step)
    ensures ClaimInv(Apply(w, step))
  {
    if step.Enqueue? || step.Claim? || step.Release? || step.Reclaim? {
      MarkKeepsClaimInv(w, step);
    } else if step.StartWrite? || step.AdvanceRow? {
      RowStepKeepsClaimInv(w, step);
    } else if step.AdvanceSession? || step.PersistRow? || step.PersistCounters? || step.PersistState? {
      SessionStepKeepsClaimInv(w, step);
    } else {
      if !w.rejected && step.StartLoad? { assert ClaimInvOf(w, w.actors[step.id]); }
      QuietStepKeepsClaimInv(w, Apply(w, step));
    }
  }

  lemma {:induction false} RunKeepsClaimInv(steps: seq<Step>)
    ensures ClaimInv(Run(CREATED_RUN, steps))
    decreases |steps|
  {
    if steps != [] {
      RunKeepsClaimInv(steps[..|steps| - 1]);
      RunKeepsInv(steps[..|steps| - 1]);
      var before, step := Run(CREATED_RUN, steps[..|steps| - 1]), steps[|steps| - 1];
      if Enabled(before, step) { StepKeepsClaimInv(before, step); }
    }
  }

  lemma ReachedLegal(w: World)
    requires Reached(w) && !w.rejected
    ensures LegalLog(w.log)
  {
    var steps :| Run(CREATED_RUN, steps) == w;
    RunKeepsClaimInv(steps);
  }

  /** What an accepted step leaves in the row, given the row as its operation read it. */
  predicate LeavesRow(read: Row, step: Step, after: Row) {
    match step
    case Enqueue(_, action) => Carries(read, after, "queue", 0, 0, action)
    case Claim(_, worker, now) => TakenBy(read, after, worker, now)
    case Release(_, attempt, action) => Carries(read, after, "queue", 0, attempt, action)
    case Reclaim(_, worker, cutoff) => TakenFrom(read, after, worker, cutoff)
    case StartWrite(_) => after == read.(version := read.version + 1, status := Initializing)
    case AdvanceRow(_, to) => after == read.(version := read.version + 1, status := to)
    case _ => true
  }

  predicate WritesOnRead(step: Step) {
    step.Enqueue? || step.Claim? || step.Release? || step.Reclaim? || step.StartWrite? || step.AdvanceRow?
  }

  /** Over all runs: every accepted write of a queue or an operator leaves the fields its operation prescribes, so a
      claim of a run that is neither CREATED nor QUEUED leaves a marker to resume it; a rejected write leaves the row
      alone. */
  lemma AcceptedWritesLeaveTheirRow(steps: seq<Step>, i: nat)
    requires i < |steps| && WritesOnRead(steps[i]) && Enabled(Run(CREATED_RUN, steps[..i]), steps[i])
    ensures var w, w' := Run(CREATED_RUN, steps[..i]), Run(CREATED_RUN, steps[..i + 1]);
            && IsReading(w, steps[i].id)
            && var read := w.actors[steps[i].id].row;
               if w.row.version == read.version
               then
                 && LeavesRow(read, steps[i], w'.row)
                 && |w'.log| == |w.log| + 1 && w'.log[|w.log|].claim == w'.row.claim
               else w'.row == w.row && w'.log == w.log
  {
    assert steps[..i + 1] == steps[..i] + [steps[i]];
    RunSnoc(CREATED_RUN, steps[..i], steps[i]);
  }

  predicate Clears(e: Write) {
    e.kind.Enqueued? || e.kind.Released? || e.kind.Reclaimed?
  }

  lemma {:induction false} StaysClaimed(log: seq<Write>, i: nat, j: nat)
    requires LegalLog(log) && i < j <= |log| && log[i].kind.Claimed?
    requires forall k | i < k < j :: !Clears(log[k])
    ensures !IsFree(ClaimBefore(log, j))
    decreases j - i
  {
    assert LegalAt(log, i);
    if j > i + 1 {
      StaysClaimed(log, i, j - 1);
      assert LegalAt(log, j - 1);
    }
  }

  /** As long as no session had a write rejected, any two successful claims of the run are
      separated by a successful enqueue, release or reclaim, which left no claim standing. */
  lemma ClaimsAreSeparated(w: World, i: nat, j: nat)
    requires Reached(w) && !w.rejected
    requires i < j < |w.log| && w.log[i].kind.Claimed? && w.log[j].kind.Claimed?
    ensures exists k | i < k < j :: Clears(w.log[k]) && IsFree(w.log[k].claim)
  {
    ReachedLegal(w);
    var log := w.log;
    assert LegalAt(log, j);
    if forall k | i < k < j :: !Clears(log[k]) {
      StaysClaimed(log, i, j);
    } else {
      var k :| i < k < j && Clears(log[k]);
      assert LegalAt(log, k);
    }
  }

  /** The attempt counter a later claim starts from: that of the last enqueue or release after entry
      `i`, else that of the claim at `i`. */
  function AttemptBase(log: seq<Write>, i: nat, j: nat): nat
    requires i < j <= |log|
    decreases j
  {
    var last := log[j - 1];
    if j == i + 1 || last.kind.Enqueued? || last.kind.Released? then AttemptOf(last.claim)
    else AttemptBase(log, i, j - 1)
  }

  lemma {:induction false} AttemptFollowsBase(log: seq<Write>, i: nat, j: nat)
    requires LegalLog(log) && i < j <= |log| && forall k | i < k < j :: !log[k].kind.Claimed?
    ensures AttemptOf(ClaimBefore(log, j)) == AttemptBase(log, i, j)
    decreases j
  {
    if j > i + 1 {
      assert LegalAt(log, j - 1);
      AttemptFollowsBase(log, i, j - 1);
    }
  }

  /** Consecutive claims: the attempt number increases exactly when the last enqueue or release
      between them, if any, did not write a smaller attempt than the earlier claim. */
  lemma AttemptIncreasesIff(w: World, i: nat, j: nat)
    requires Reached(w) && !w.rejected
    requires i < j < |w.log| && w.log[i].kind.Claimed? && w.log[j].kind.Claimed?
    requires forall k | i < k < j :: !w.log[k].kind.Claimed?
    ensures var log := w.log;
            && AttemptOf(log[j].claim) == AttemptBase(log, i, j) + 1
            && (AttemptOf(log[i].claim) < AttemptOf(log[j].claim)
                <==> AttemptOf(log[i].claim) <= AttemptBase(log, i, j))
  {
    ReachedLegal(w);
    var log := w.log;
    AttemptFollowsBase(log, i, j);
    assert LegalAt(log, j);
  }

  /** A release by the current holder hands back the attempt number of the claim it found. */
  predicate ByHolder(log: seq<Write>, k: nat)
    requires k < |log|
  {
    !IsFree(ClaimBefore(log, k)) && AttemptOf(log[k].claim) == AttemptOf(ClaimBefore(log, k))
  }

  lemma {:induction false} AttemptNeverDrops(log: seq<Write>, i: nat, j: nat)
    requires LegalLog(log) && i < j <= |log|
    requires forall k | i < k < j :: !log[k].kind.Enqueued? && (log[k].kind.Released? ==> ByHolder(log, k))
    ensures AttemptOf(log[i].claim) <= AttemptOf(ClaimBefore(log, j))
    decreases j - i
  {
    if j > i + 1 {
      AttemptNeverDrops(log, i, j - 1);
      assert LegalAt(log, j - 1);
    }
  }

  /** If every release comes from the current holder, attempt numbers strictly increase over all
      the claims between two enqueues. */
  lemma AttemptsIncrease(w: World, i: nat, j: nat)
    requires Reached(w) && !w.rejected
    requires i < j < |w.log| && w.log[i].kind.Claimed? && w.log[j].kind.Claimed?
    requires forall k | i < k < j :: !w.log[k].kind.Enqueued? && (w.log[k].kind.Released? ==> ByHolder(w.log, k))
    ensures AttemptOf(w.log[i].claim) < AttemptOf(w.log[j].claim)
  {
    ReachedLegal(w);
    var log := w.log;
    AttemptNeverDrops(log, i, j);
    assert LegalAt(log, j);
  }

  /** A claim is taken over while the worker that made it is still alive. */
  lemma ClaimTakenOver() returns (steps: seq<Step>)
    ensures var w := Run(CREATED_RUN, steps);
            && w.row == Row(3, Created, Some(Marker("queue", 0, 1, DispatchStart)))
            && |w.log| == 2 && w.actors == map[] && !w.rejected
  {
    var s1 := [Read(1)];
    var s2 := s1 + [Claim(1, "a", 1)];
    var s3 := s2 + [Read(2)];
    steps := s3 + [Reclaim(2, "b", 1)];
    RunSnoc(CREATED_RUN, [], Read(1));
    assert [] + [Read(1)] == s1;
    RunSnoc(CREATED_RUN, s1, Claim(1, "a", 1));
    RunSnoc(CREATED_RUN, s2, Read(2));
    RunSnoc(CREATED_RUN, s3, Reclaim(2, "b", 1));
    assert Run(CREATED_RUN, steps).actors == map[];
  }

  /** Without that proviso they need not: a worker whose claim was taken over releases its old
      ticket, and the next claim repeats an attempt number. */
  lemma StaleReleaseRepeatsAttempt() returns (steps: seq<Step>)
    ensures var w := Run(CREATED_RUN, steps);
            && !w.rejected && |w.log| == 5
            && w.log[2].kind.Claimed? && w.log[3].kind.Released? && w.log[4].kind.Claimed?
            && AttemptOf(w.log[2].claim) == AttemptOf(w.log[4].claim)
  {
    var s4 := ClaimTakenOver();
    var s5 := s4 + [Read(3)];
    var s6 := s5 + [Claim(3, "b", 2)];
    var s7 := s6 + [Read(4)];
    var s8 := s7 + [Release(4, 1, DispatchStart)];
    var s9 := s8 + [Read(5)];
    steps := s9 + [Claim(5, "c", 3)];
    RunSnoc(CREATED_RUN, s4, Read(3));
    RunSnoc(CREATED_RUN, s5, Claim(3, "b", 2));
    RunSnoc(CREATED_RUN, s6, Read(4));
    RunSnoc(CREATED_RUN, s7, Release(4, 1, DispatchStart));
    RunSnoc(CREATED_RUN, s8, Read(5));
    RunSnoc(CREATED_RUN, s9, Claim(5, "c", 3));
  }

  /** A write that passes the version check can still overwrite a row it never saw, but, as long as no
      session had a write rejected, only at a version that a session wrote. */
  lemma VersionCheckSeesRow(w: World, id: Id)
    requires Reached(w) && !w.rejected && IsReading(w, id) && w.actors[id].row.version == w.row.version
    ensures w.actors[id].row.claim == w.row.claim
    ensures w.actors[id].row != w.row ==> BySession(w.log, w.row.version)
  {
    var steps :| Run(CREATED_RUN, steps) == w;
    RunKeepsClaimInv(steps);
    RunKeepsInv(steps);
    assert ClaimInvOf(w, w.actors[id]);
  }
}
