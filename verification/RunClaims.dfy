/** The claim protocol of the store-backed run queue: what a queue operation writes onto a run row. */
module RunClaims {
  import opened Wrappers
  import opened RunStates

  datatype DispatchAction = DispatchStart | DispatchResume | DispatchRetry

  datatype Marker = Marker(workerId: string, at: nat, attempt: nat, action: DispatchAction)

  /** The fields of a run row that the protocol reads or writes. */
  datatype Row = Row(version: nat, status: RunState, claim: Option<Marker>)

  predicate Claimable(status: RunState) {
    match status
    case Created | Queued | Initializing | Planning | Executing | Observing | Verifying | Recovering | Paused => true
    case _ => false
  }

  predicate IsFree(claim: Option<Marker>) {
    claim.None? || claim.value.at == 0
  }

  function AttemptOf(claim: Option<Marker>): nat {
    if claim.None? then 0 else claim.value.attempt
  }

  predicate Stale(claim: Option<Marker>, workerId: string, cutoff: int) {
    claim.Some? && claim.value.at != 0 && claim.value.at <= cutoff && claim.value.workerId != workerId
  }

  /** `write`: a marker is stored together with a version bump. */
  function Marked(run: Row, marker: Marker): Row {
    Row(run.version + 1, run.status, Some(marker))
  }

  function EnqueueMarker(action: DispatchAction): Marker {
    Marker("queue", 0, 0, action)
  }

  function ClaimMarker(run: Row, workerId: string, now: nat): Marker {
    var action := if run.status.Created? || run.status.Queued? then DispatchStart else DispatchResume;
    Marker(workerId, now, AttemptOf(run.claim) + 1, action)
  }

  function ReleaseMarker(attempt: nat, action: DispatchAction): Marker {
    Marker("queue", 0, attempt, action)
  }

  function ReclaimMarker(claim: Marker): Marker {
    claim.(workerId := "queue", at := 0)
  }

  // ------------------------------------------------------------------ the same writes, field by field

  /** The row after a queue write: one version on, the same status, and the claim's four fields. */
  predicate Carries(before: Row, after: Row, workerId: string, at: nat, attempt: nat, action: DispatchAction) {
    && after.version == before.version + 1 && after.status == before.status
    && after.claim.Some?
    && after.claim.value.workerId == workerId && after.claim.value.at == at
    && after.claim.value.attempt == attempt && after.claim.value.action == action
  }

  /** A worker takes a run nobody holds: the first attempt is 1, each later one counts the previous on, and only a run
      that never started is started, every other one is resumed. */
  predicate TakenBy(before: Row, after: Row, workerId: string, now: nat) {
    && (before.claim.Some? ==> before.claim.value.at == 0)
    && Carries(before, after, workerId, now,
         if before.claim.Some? then before.claim.value.attempt + 1 else 1,
         if before.status == Created || before.status == Queued then DispatchStart else DispatchResume)
  }

  /** The claim of another worker, made no later than the cutoff, is taken away; its count and its action stay. */
  predicate TakenFrom(before: Row, after: Row, workerId: string, cutoff: int) {
    && before.claim.Some? && 0 < before.claim.value.at <= cutoff && before.claim.value.workerId != workerId
    && Carries(before, after, "queue", 0, before.claim.value.attempt, before.claim.value.action)
  }
}
