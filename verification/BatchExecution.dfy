/** `execute`: the waves of a batch, what is skipped, and the counts that are reported. */
module BatchExecution {
  import opened Wrappers
  import opened DependencyGraph
  import opened Waves
  import WP = WorkerPool

  datatype Status = Succeeded | Failed | Denied | AwaitingApproval | AlreadyCommitted | Skipped

  datatype Outcome = Outcome(actionId: string, status: Status, replayed: bool)

  datatype ExecutionOutcome = ExecutionOutcome(
    outcomes: seq<Outcome>, waves: nat, succeeded: nat, failed: nat, denied: nat, awaitingApproval: nat, replayed: nat)

  datatype ExecutionError = NoActions | NotADag(error: DagError)

  /** The outcomes whose ids `execute` remembers as failed: skipped ones never run and are not among them. */
  predicate Blocks(o: Outcome) {
    !o.status.Succeeded? && !o.status.AlreadyCommitted? && !o.status.Skipped?
  }

  /** What executing each action returns; execution itself never returns a skip. */
  predicate RanAll(nodes: seq<Node>, ran: map<string, Outcome>) {
    forall n | n in nodes :: n.id in ran && ran[n.id].actionId == n.id && !ran[n.id].status.Skipped?
  }

  /** The declared meaning of a batch, by recursion along the dependencies: an action is skipped exactly when a
      direct dependency of the batch ran and ended neither succeeded nor already committed. */
  ghost function OutcomeOf(g: Graph, depth: map<string, nat>, ran: map<string, Outcome>, id: string): Outcome
    requires Ranked(g, depth) && id in g && g.Keys <= ran.Keys
    decreases depth[id]
  {
    if exists d :: d in g[id] && d in g && Blocks(OutcomeOf(g, depth, ran, d)) then Outcome(id, Skipped, false)
    else ran[id]
  }

  /** How many outcomes speak of an action, and how many nodes carry an id. */
  function Mentions(outcomes: seq<Outcome>, id: string): nat {
    if outcomes == [] then 0
    else Mentions(outcomes[..|outcomes| - 1], id) + if outcomes[|outcomes| - 1].actionId == id then 1 else 0
  }

  function Carriers(nodes: seq<Node>, id: string): nat {
    if nodes == [] then 0
    else Carriers(nodes[..|nodes| - 1], id) + if nodes[|nodes| - 1].id == id then 1 else 0
  }

  lemma MentionsSnoc(outcomes: seq<Outcome>, o: Outcome, id: string)
    ensures Mentions(outcomes + [o], id) == Mentions(outcomes, id) + if o.actionId == id then 1 else 0
  {
    assert (outcomes + [o])[..|outcomes|] == outcomes;
  }

  lemma CarriersSnoc(nodes: seq<Node>, n: Node, id: string)
    ensures Carriers(nodes + [n], id) == Carriers(nodes, id) + if n.id == id then 1 else 0
  {
    assert (nodes + [n])[..|nodes|] == nodes;
  }

  lemma {:induction false} MentionsAppend(a: seq<Outcome>, b: seq<Outcome>, id: string)
    ensures Mentions(a + b, id) == Mentions(a, id) + Mentions(b, id)
  {
    if b == [] {
      assert a + b == a;
    } else {
      var shorter, last := b[..|b| - 1], b[|b| - 1];
      assert a + b == (a + shorter) + [last];
      MentionsSnoc(a + shorter, last, id);
      MentionsAppend(a, shorter, id);
    }
  }

  lemma {:induction false} NotCarried(nodes: seq<Node>, id: string)
    requires forall k | 0 <= k < |nodes| :: nodes[k].id != id
    ensures Carriers(nodes, id) == 0
  {
    if nodes != [] {
      assert nodes[|nodes| - 1].id != id;
      NotCarried(nodes[..|nodes| - 1], id);
    }
  }

  /** Distinct ids are each carried once. */
  lemma {:induction false} CarriedOnce(nodes: seq<Node>, k: nat)
    requires DistinctIds(nodes) && k < |nodes|
    ensures Carriers(nodes, nodes[k].id) == 1
  {
    var last := |nodes| - 1;
    if k == last {
      NotCarried(nodes[..last], nodes[last].id);
    } else {
      assert nodes[k].id != nodes[last].id;
      CarriedOnce(nodes[..last], k);
    }
  }

  function Count(outcomes: seq<Outcome>, status: Status): nat {
    if outcomes == [] then 0
    else Count(outcomes[..|outcomes| - 1], status) + if outcomes[|outcomes| - 1].status == status then 1 else 0
  }

  function CountReplayed(outcomes: seq<Outcome>): nat {
    if outcomes == [] then 0
    else CountReplayed(outcomes[..|outcomes| - 1]) + if outcomes[|outcomes| - 1].replayed then 1 else 0
  }

  lemma {:induction false} SixStatusesSum(outcomes: seq<Outcome>)
    ensures Count(outcomes, Succeeded) + Count(outcomes, Failed) + Count(outcomes, Denied)
            + Count(outcomes, AwaitingApproval) + Count(outcomes, AlreadyCommitted) + Count(outcomes, Skipped)
                == |outcomes|
  {
    if outcomes != [] { SixStatusesSum(outcomes[..|outcomes| - 1]); }
  }

  /** The nodes of the first `k` waves. */
  function Before(nodes: seq<Node>, depth: map<string, nat>, k: nat): seq<Node> {
    if nodes == [] then []
    else
      var rest := Before(nodes[..|nodes| - 1], depth, k);
      var last := nodes[|nodes| - 1];
      if last.id in depth && depth[last.id] < k then rest + [last] else rest
  }

  lemma {:induction false} WaveByWave(nodes: seq<Node>, depth: map<string, nat>, k: nat, id: string)
    ensures Carriers(Before(nodes, depth, k + 1), id)
            == Carriers(Before(nodes, depth, k), id) + Carriers(AtDepth(nodes, depth, k), id)
    ensures |Before(nodes, depth, k + 1)| == |Before(nodes, depth, k)| + |AtDepth(nodes, depth, k)|
  {
    if nodes != [] {
      var shorter, last := nodes[..|nodes| - 1], nodes[|nodes| - 1];
      WaveByWave(shorter, depth, k, id);
      CarriersSnoc(Before(shorter, depth, k + 1), last, id);
      CarriersSnoc(Before(shorter, depth, k), last, id);
      CarriersSnoc(AtDepth(shorter, depth, k), last, id);
    }
  }

  lemma {:induction false} AllBefore(nodes: seq<Node>, depth: map<string, nat>, k: nat)
    requires forall n | n in nodes :: n.id in depth && depth[n.id] < k
    ensures Before(nodes, depth, k) == nodes
  {
    if nodes != [] {
      var shorter, last := nodes[..|nodes| - 1], nodes[|nodes| - 1];
      assert nodes == shorter + [last] && last in nodes;
      AllBefore(shorter, depth, k);
    }
  }

  lemma {:induction false} NoneBefore(nodes: seq<Node>, depth: map<string, nat>)
    ensures Before(nodes, depth, 0) == []
  {
    if nodes != [] { NoneBefore(nodes[..|nodes| - 1], depth); }
  }

  /** The ids remembered as failed after the first `k` waves are exactly those that block. */
  ghost predicate FailedIdsUpTo(g: Graph, depth: map<string, nat>, ran: map<string, Outcome>, k: nat,
        failed: set<string>)
    requires Ranked(g, depth) && g.Keys <= ran.Keys
  {
    forall id :: id in failed <==> id in g && depth[id] < k && Blocks(OutcomeOf(g, depth, ran, id))
  }

  /** The outcomes collected so far say of each action what `OutcomeOf` says. */
  ghost predicate Faithful(g: Graph, depth: map<string, nat>, ran: map<string, Outcome>, outcomes: seq<Outcome>)
    requires Ranked(g, depth) && g.Keys <= ran.Keys
  {
    forall o | o in outcomes :: o.actionId in g && o == OutcomeOf(g, depth, ran, o.actionId)
  }

  ghost predicate Setting(nodes: seq<Node>, g: Graph, depth: map<string, nat>, ran: map<string, Outcome>) {
    && DistinctIds(nodes) && g == GraphOf(nodes) && Ranked(g, depth) && g.Keys <= ran.Keys && RanAll(nodes, ran)
    && forall n | n in nodes :: n.id in g && g[n.id] == n.dependsOn
  }

  /** One outcome for each node, and none for anything else. */
  ghost predicate Covers(outcomes: seq<Outcome>, nodes: seq<Node>) {
    |outcomes| == |nodes| && forall id :: Mentions(outcomes, id) == Carriers(nodes, id)
  }

  /** A direct dependency in the batch failed, was denied or waits for approval. */
  ghost predicate Stopping(outcomes: seq<Outcome>, n: Node) {
    exists p :: p in outcomes && p.actionId in n.dependsOn
      && (p.status.Failed? || p.status.Denied? || p.status.AwaitingApproval?)
  }

  /** Skipping, read off the reported outcomes alone; every action that is not skipped is reported as it ran. */
  ghost predicate SkipsRightly(actions: seq<Node>, ran: map<string, Outcome>, outcomes: seq<Outcome>) {
    forall n, o | n in actions && o in outcomes && o.actionId == n.id ::
      if Stopping(outcomes, n) then o == Outcome(n.id, Skipped, false) else n.id in ran && o == ran[n.id]
  }

  function Statuses(outcomes: seq<Outcome>): seq<Status> {
    seq(|outcomes|, i requires 0 <= i < |outcomes| => outcomes[i].status)
  }

  function Replays(outcomes: seq<Outcome>): seq<bool> {
    seq(|outcomes|, i requires 0 <= i < |outcomes| => outcomes[i].replayed)
  }

  /** Each reported number is how often its status occurs. */
  ghost predicate CountsRightly(r: ExecutionOutcome) {
    var occurrences := multiset(Statuses(r.outcomes));
    && r.succeeded == occurrences[Succeeded] && r.failed == occurrences[Failed] && r.denied == occurrences[Denied]
    && r.awaitingApproval == occurrences[AwaitingApproval] && r.replayed == multiset(Replays(r.outcomes))[true]
  }

  lemma {:induction false} CountsOccurrences(outcomes: seq<Outcome>, status: Status)
    ensures Count(outcomes, status) == multiset(Statuses(outcomes))[status]
  {
    if outcomes != [] {
      CountsOccurrences(outcomes[..|outcomes| - 1], status);
      assert Statuses(outcomes) == Statuses(outcomes[..|outcomes| - 1]) + [outcomes[|outcomes| - 1].status];
    }
  }

  lemma {:induction false} CountsReplays(outcomes: seq<Outcome>)
    ensures CountReplayed(outcomes) == multiset(Replays(outcomes))[true]
  {
    if outcomes != [] {
      CountsReplays(outcomes[..|outcomes| - 1]);
      assert Replays(outcomes) == Replays(outcomes[..|outcomes| - 1]) + [outcomes[|outcomes| - 1].replayed];
    }
  }

  lemma ReportCounts(outcomes: seq<Outcome>, waves: nat)
    ensures CountsRightly(Report(outcomes, waves))
  {
    forall status { CountsOccurrences(outcomes, status); }
    CountsReplays(outcomes);
  }

  lemma {:induction false} Mentioned(outcomes: seq<Outcome>, id: string) returns (o: Outcome)
    requires Mentions(outcomes, id) > 0
    ensures o in outcomes && o.actionId == id
  {
    if outcomes[|outcomes| - 1].actionId == id {
      o := outcomes[|outcomes| - 1];
    } else {
      o := Mentioned(outcomes[..|outcomes| - 1], id);
    }
  }

  lemma FaithfulSkips(actions: seq<Node>, depth: map<string, nat>, ran: map<string, Outcome>, outcomes: seq<Outcome>)
    requires Setting(actions, GraphOf(actions), depth, ran) && Covers(outcomes, actions)
    requires Faithful(GraphOf(actions), depth, ran, outcomes)
    ensures SkipsRightly(actions, ran, outcomes)
  {
    forall n, o | n in actions && o in outcomes && o.actionId == n.id
      ensures Stopping(outcomes, n) <==> o.status.Skipped?
      ensures o == if Stopping(outcomes, n) then Outcome(n.id, Skipped, false) else ran[n.id]
    {
      OneSkip(actions, depth, ran, outcomes, n);
    }
  }

  lemma OneSkip(actions: seq<Node>, depth: map<string, nat>, ran: map<string, Outcome>, outcomes: seq<Outcome>, n: Node)
    requires Setting(actions, GraphOf(actions), depth, ran) && Covers(outcomes, actions)
    requires Faithful(GraphOf(actions), depth, ran, outcomes) && n in actions
    ensures OutcomeOf(GraphOf(actions), depth, ran, n.id)
            == if Stopping(outcomes, n) then Outcome(n.id, Skipped, false) else ran[n.id]
  {
    var g := GraphOf(actions);
    if d :| d in g[n.id] && d in g && Blocks(OutcomeOf(g, depth, ran, d)) {
      GraphOfKeys(actions);
      var m :| m in actions && m.id == d;
      var k :| 0 <= k < |actions| && actions[k] == m;
      CarriedOnce(actions, k);
      var p := Mentioned(outcomes, d);
    }
  }

  /** Every batch that is a DAG yields exactly one outcome per action, the declared one. */
  method Execute(actions: seq<Node>, ran: map<string, Outcome>)
    returns (r: Result<ExecutionOutcome, ExecutionError>, ghost depth: map<string, nat>)
    requires RanAll(actions, ran)
    ensures r.Ok? <==> actions != [] && DistinctIds(actions) && Acyclic(GraphOf(actions))
    ensures r.Err? ==> (r.error.NoActions? <==> actions == [])
    ensures r.Err? && r.error.NotADag? && r.error.error.DuplicateId? ==> FirstRepeats(actions, r.error.error.id)
    ensures r.Err? && r.error.NotADag? && r.error.error.DependencyCycle? ==>
              DistinctIds(actions) && Endless(actions, r.error.error.ids)
    ensures r.Ok? ==> Setting(actions, GraphOf(actions), depth, ran)
    ensures r.Ok? ==> Covers(r.value.outcomes, actions)
    ensures r.Ok? ==> Faithful(GraphOf(actions), depth, ran, r.value.outcomes)
    ensures r.Ok? ==> IsCriticalPath(GraphOf(actions), r.value.waves)
    ensures r.Ok? ==> r.value == Report(r.value.outcomes, r.value.waves)
    ensures r.Ok? ==> SkipsRightly(actions, ran, r.value.outcomes) && CountsRightly(r.value)
  {
    depth := map[];
    if actions == [] { return Err(NoActions), depth; }
    var planned;
    planned, depth := PlanWaves(actions);
    if planned.Err? { return Err(NotADag(planned.error)), depth; }
    Prepare(actions, depth, ran);
    WavesCountLongestChain(actions, planned.value, depth);
    var outcomes := ExecuteWaves(actions, planned.value, depth, ran);
    FaithfulSkips(actions, depth, ran, outcomes);
    ReportCounts(outcomes, |planned.value|);
    return Ok(Report(outcomes, |planned.value|)), depth;
  }

  method ExecuteWaves(ghost actions: seq<Node>, waves: seq<seq<Node>>, ghost depth: map<string, nat>,
        ran: map<string, Outcome>)
    returns (outcomes: seq<Outcome>)
    requires RanAll(actions, ran) && Setting(actions, GraphOf(actions), depth, ran)
    requires forall n | n in actions :: n.id in depth && depth[n.id] < |waves|
    requires forall k: nat | k < |waves| :: waves[k] == AtDepth(actions, depth, k)
    ensures Covers(outcomes, actions) && Faithful(GraphOf(actions), depth, ran, outcomes)
  {
    NoneBefore(actions, depth);
    var failedIds: set<string> := {};
    outcomes := [];
    for k := 0 to |waves|
      invariant Covers(outcomes, Before(actions, depth, k))
      invariant Faithful(GraphOf(actions), depth, ran, outcomes)
      invariant FailedIdsUpTo(GraphOf(actions), depth, ran, k, failedIds)
    {
      AtDepthMembers(actions, depth, k);
      ghost var before, failed0 := outcomes, failedIds;
      outcomes, failedIds := ExecuteWave(waves[k], ran, outcomes, failedIds);
      WaveCovers(actions, depth, k, ran, before, failed0);
      WaveIsFaithful(actions, waves[k], k, depth, ran, before, failed0);
      WaveFails(actions, waves[k], k, depth, ran, failed0, failedIds);
    }
    AllBefore(actions, depth, |waves|);
  }

  function Report(outcomes: seq<Outcome>, waves: nat): ExecutionOutcome {
    ExecutionOutcome(outcomes, waves, Count(outcomes, Succeeded), Count(outcomes, Failed), Count(outcomes, Denied),
                     Count(outcomes, AwaitingApproval), CountReplayed(outcomes))
  }

  lemma Prepare(actions: seq<Node>, depth: map<string, nat>, ran: map<string, Outcome>)
    requires DistinctIds(actions) && RanAll(actions, ran) && depth.Keys == IdsOf(actions)
    requires forall id | id in depth :: IsDepth(GraphOf(actions), id, depth[id])
    ensures Setting(actions, GraphOf(actions), depth, ran)
    ensures forall n | n in actions :: n.id in depth
  {
    GraphOfKeys(actions);
    GraphKeysAreIds(actions);
    DepthsRank(GraphOf(actions), depth);
    forall id | id in GraphOf(actions) ensures id in ran {
      var n :| n in actions && n.id == id;
    }
  }

  predicate Blocked(n: Node, failedIds: set<string>) {
    exists d :: d in n.dependsOn && d in failedIds
  }

  function SkippedOf(wave: seq<Node>, failedIds: set<string>): seq<Outcome> {
    if wave == [] then []
    else
      var last := wave[|wave| - 1];
      var rest := SkippedOf(wave[..|wave| - 1], failedIds);
      if Blocked(last, failedIds) then rest + [Outcome(last.id, Skipped, false)] else rest
  }

  function RunnableOf(wave: seq<Node>, failedIds: set<string>): seq<Node> {
    if wave == [] then []
    else
      var last := wave[|wave| - 1];
      var rest := RunnableOf(wave[..|wave| - 1], failedIds);
      if Blocked(last, failedIds) then rest else rest + [last]
  }

  function RanOf(nodes: seq<Node>, ran: map<string, Outcome>): seq<Outcome>
    requires RanAll(nodes, ran)
  {
    if nodes == [] then [] else RanOf(nodes[..|nodes| - 1], ran) + [ran[nodes[|nodes| - 1].id]]
  }

  /** One wave: blocked nodes are reported first, the rest run and are reported in input order. */
  method ExecuteWave(wave: seq<Node>, ran: map<string, Outcome>, outcomes0: seq<Outcome>, failed0: set<string>)
    returns (outcomes: seq<Outcome>, failedIds: set<string>)
    requires RanAll(wave, ran)
    ensures RanAll(RunnableOf(wave, failed0), ran)
    ensures outcomes == outcomes0 + SkippedOf(wave, failed0) + RanOf(RunnableOf(wave, failed0), ran)
    ensures forall id :: id in failedIds <==> id in failed0 || exists n ::
              n in wave && n.id == id && !Blocked(n, failed0) && Blocks(ran[id])
  {
    var skipped, runnable := SplitWave(wave, failed0);
    RunnableMembers(wave, failed0);
    var collected;
    collected, failedIds := RunWave(runnable, ran, failed0);
    outcomes := outcomes0 + skipped + collected;
  }

  method SplitWave(wave: seq<Node>, failedIds: set<string>) returns (skipped: seq<Outcome>, runnable: seq<Node>)
    ensures skipped == SkippedOf(wave, failedIds) && runnable == RunnableOf(wave, failedIds)
  {
    skipped, runnable := [], [];
    for i := 0 to |wave|
      invariant skipped == SkippedOf(wave[..i], failedIds) && runnable == RunnableOf(wave[..i], failedIds)
    {
      assert wave[..i + 1][..i] == wave[..i];
      if exists d :: d in wave[i].dependsOn && d in failedIds {
        skipped := skipped + [Outcome(wave[i].id, Skipped, false)];
      } else {
        runnable := runnable + [wave[i]];
      }
    }
    assert wave[..|wave|] == wave;
  }

  method RunWave(runnable: seq<Node>, ran: map<string, Outcome>, failed0: set<string>)
    returns (collected: seq<Outcome>, failedIds: set<string>)
    requires RanAll(runnable, ran)
    ensures collected == RanOf(runnable, ran)
    ensures forall id :: id in failedIds <==> id in failed0 || exists n ::
              n in runnable && n.id == id && Blocks(ran[id])
  {
    collected, failedIds := [], failed0;
    for i := 0 to |runnable|
      invariant collected == RanOf(runnable[..i], ran)
      invariant forall id :: id in failedIds <==> id in failed0 || exists n ::
                n in runnable[..i] && n.id == id && Blocks(ran[id])
    {
      assert runnable[..i + 1][..i] == runnable[..i];
      assert runnable[..i + 1] == runnable[..i] + [runnable[i]];
      var outcome := ran[runnable[i].id];
      collected := collected + [outcome];
      if !outcome.status.Succeeded? && !outcome.status.AlreadyCommitted? {
        failedIds := failedIds + {outcome.actionId};
      }
    }
    assert runnable[..|runnable|] == runnable;
  }

  lemma {:induction false} RunnableMembers(wave: seq<Node>, failedIds: set<string>)
    ensures forall n :: n in RunnableOf(wave, failedIds) <==> n in wave && !Blocked(n, failedIds)
  {
    if wave != [] {
      assert wave == wave[..|wave| - 1] + [wave[|wave| - 1]];
      RunnableMembers(wave[..|wave| - 1], failedIds);
    }
  }

  lemma {:induction false} SkippedMembers(wave: seq<Node>, failedIds: set<string>)
    ensures forall o | o in SkippedOf(wave, failedIds) ::
              exists n :: n in wave && Blocked(n, failedIds) && o == Outcome(n.id, Skipped, false)
  {
    if wave != [] {
      var last := wave[|wave| - 1];
      assert wave == wave[..|wave| - 1] + [last] && last in wave;
      SkippedMembers(wave[..|wave| - 1], failedIds);
    }
  }

  lemma {:induction false} RanMembers(nodes: seq<Node>, ran: map<string, Outcome>)
    requires RanAll(nodes, ran)
    ensures forall o | o in RanOf(nodes, ran) :: exists n :: n in nodes && o == ran[n.id]
  {
    if nodes != [] {
      var shorter, last := nodes[..|nodes| - 1], nodes[|nodes| - 1];
      assert nodes == shorter + [last] && last in nodes;
      RanMembers(shorter, ran);
    }
  }

  lemma {:induction false} RanOfAt(nodes: seq<Node>, ran: map<string, Outcome>, i: nat)
    requires RanAll(nodes, ran) && i < |nodes|
    ensures |RanOf(nodes, ran)| == |nodes| && RanOf(nodes, ran)[i] == ran[nodes[i].id]
  {
    RanCovers(nodes, ran, "");
    if i < |nodes| - 1 {
      RanOfAt(nodes[..|nodes| - 1], ran, i);
    }
  }

  /** A wave runs on concurrent workers, yet in every interleaving that finishes the results come back in input
      order: what `RunWave` collects. */
  lemma EveryInterleavingCollectsInOrder(
      runnable: seq<Node>, ran: map<string, Outcome>, concurrency: int, steps: seq<WP.Step<Outcome>>,
          f: Node -> Outcome)
    requires RanAll(runnable, ran) && forall n | n in runnable :: f(n) == ran[n.id]
    requires WP.Answered(WP.Begin(runnable, concurrency), steps, f)
    requires var p := WP.Run(WP.Begin(runnable, concurrency), steps);
             forall k | 0 <= k < |p.workers| :: p.workers[k].Done?
    ensures var p := WP.Run(WP.Begin(runnable, concurrency), steps);
            && (forall i :: i in p.results <==> 0 <= i < |runnable|)
            && |RanOf(runnable, ran)| == |runnable|
            && forall i | 0 <= i < |runnable| :: p.results[i] == RanOf(runnable, ran)[i]
  {
    WP.WhenAllDone<Node, Outcome>(runnable, concurrency, steps);
    WP.ResultsBelongToItems(runnable, concurrency, steps, f);
    RanCovers(runnable, ran, "");
    forall i | 0 <= i < |runnable|
      ensures WP.Run(WP.Begin(runnable, concurrency), steps).results[i] == RanOf(runnable, ran)[i]
    {
      assert runnable[i] in runnable;
      RanOfAt(runnable, ran, i);
    }
  }

  lemma {:induction false} RanCovers(nodes: seq<Node>, ran: map<string, Outcome>, id: string)
    requires RanAll(nodes, ran)
    ensures Mentions(RanOf(nodes, ran), id) == Carriers(nodes, id) && |RanOf(nodes, ran)| == |nodes|
  {
    if nodes != [] {
      var shorter, last := nodes[..|nodes| - 1], nodes[|nodes| - 1];
      RanCovers(shorter, ran, id);
      MentionsSnoc(RanOf(shorter, ran), ran[last.id], id);
    }
  }

  /** Splitting a wave loses no node and repeats none. */
  lemma {:induction false} SplitCovers(wave: seq<Node>, failedIds: set<string>, id: string)
    ensures Mentions(SkippedOf(wave, failedIds), id) + Carriers(RunnableOf(wave, failedIds), id) == Carriers(wave, id)
    ensures |SkippedOf(wave, failedIds)| + |RunnableOf(wave, failedIds)| == |wave|
  {
    if wave != [] {
      var shorter, last := wave[..|wave| - 1], wave[|wave| - 1];
      SplitCovers(shorter, failedIds, id);
      MentionsSnoc(SkippedOf(shorter, failedIds), Outcome(last.id, Skipped, false), id);
      CarriersSnoc(RunnableOf(shorter, failedIds), last, id);
    }
  }

  /** A wave adds exactly one outcome for each of its nodes. */
  lemma WaveCovers(
      nodes: seq<Node>, depth: map<string, nat>, k: nat, ran: map<string, Outcome>, outcomes0: seq<Outcome>,
          failed0: set<string>)
    requires RanAll(RunnableOf(AtDepth(nodes, depth, k), failed0), ran) && Covers(outcomes0, Before(nodes, depth, k))
    ensures Covers(outcomes0 + SkippedOf(AtDepth(nodes, depth, k), failed0)
              + RanOf(RunnableOf(AtDepth(nodes, depth, k), failed0), ran),
                   Before(nodes, depth, k + 1))
  {
    var wave := AtDepth(nodes, depth, k);
    var skipped, collected := SkippedOf(wave, failed0), RanOf(RunnableOf(wave, failed0), ran);
    forall id
      ensures Mentions(outcomes0 + skipped + collected, id) == Carriers(Before(nodes, depth, k + 1), id)
      ensures |outcomes0 + skipped + collected| == |Before(nodes, depth, k + 1)|
    {
      MentionsAppend(outcomes0 + skipped, collected, id);
      MentionsAppend(outcomes0, skipped, id);
      RanCovers(RunnableOf(wave, failed0), ran, id);
      SplitCovers(wave, failed0, id);
      WaveByWave(nodes, depth, k, id);
    }
    var id := "";
    RanCovers(RunnableOf(wave, failed0), ran, id);
    SplitCovers(wave, failed0, id);
    WaveByWave(nodes, depth, k, id);
  }

  /** The source's test against the remembered ids decides exactly the declared skip. */
  lemma BlockedIsDeclared(
      nodes: seq<Node>, k: nat, depth: map<string, nat>, ran: map<string, Outcome>, failed: set<string>, n: Node)
    requires Setting(nodes, GraphOf(nodes), depth, ran) && n in nodes && depth[n.id] == k
    requires FailedIdsUpTo(GraphOf(nodes), depth, ran, k, failed)
    ensures OutcomeOf(GraphOf(nodes), depth, ran, n.id)
            == if Blocked(n, failed) then Outcome(n.id, Skipped, false) else ran[n.id]
  {
    var g := GraphOf(nodes);
    forall d | d in n.dependsOn
      ensures d in failed <==> d in g && Blocks(OutcomeOf(g, depth, ran, d))
    {
    }
  }

  lemma WaveIsFaithful(
      nodes: seq<Node>, wave: seq<Node>, k: nat, depth: map<string, nat>, ran: map<string, Outcome>,
      outcomes0: seq<Outcome>, failed0: set<string>)
    requires Setting(nodes, GraphOf(nodes), depth, ran) && RanAll(RunnableOf(wave, failed0), ran)
    requires forall n :: n in wave <==> n in nodes && depth[n.id] == k
    requires Faithful(GraphOf(nodes), depth, ran, outcomes0) && FailedIdsUpTo(GraphOf(nodes), depth, ran, k, failed0)
    ensures Faithful(GraphOf(nodes), depth, ran,
              outcomes0 + SkippedOf(wave, failed0) + RanOf(RunnableOf(wave, failed0), ran))
  {
    var g := GraphOf(nodes);
    RunnableMembers(wave, failed0);
    SkippedMembers(wave, failed0);
    RanMembers(RunnableOf(wave, failed0), ran);
    forall o | o in SkippedOf(wave, failed0) ensures o.actionId in g && o == OutcomeOf(g, depth, ran, o.actionId) {
      var n :| n in wave && Blocked(n, failed0) && o == Outcome(n.id, Skipped, false);
      BlockedIsDeclared(nodes, k, depth, ran, failed0, n);
    }
    forall o | o in RanOf(RunnableOf(wave, failed0), ran)
      ensures o.actionId in g && o == OutcomeOf(g, depth, ran, o.actionId)
    {
      var n :| n in RunnableOf(wave, failed0) && o == ran[n.id];
      BlockedIsDeclared(nodes, k, depth, ran, failed0, n);
    }
  }

  lemma WaveFails(
      nodes: seq<Node>, wave: seq<Node>, k: nat, depth: map<string, nat>, ran: map<string, Outcome>,
      failed0: set<string>, failed: set<string>)
    requires Setting(nodes, GraphOf(nodes), depth, ran)
    requires forall n :: n in wave <==> n in nodes && depth[n.id] == k
    requires FailedIdsUpTo(GraphOf(nodes), depth, ran, k, failed0)
    requires forall id :: id in failed <==> id in failed0 || exists n ::
              n in wave && n.id == id && !Blocked(n, failed0) && Blocks(ran[id])
    ensures FailedIdsUpTo(GraphOf(nodes), depth, ran, k + 1, failed)
  {
    var g := GraphOf(nodes);
    GraphOfKeys(nodes);
    forall id ensures id in failed <==> id in g && depth[id] < k + 1 && Blocks(OutcomeOf(g, depth, ran, id)) {
      if id in g && depth[id] == k {
        var n :| n in nodes && n.id == id;
        assert n in wave;
        BlockedIsDeclared(nodes, k, depth, ran, failed0, n);
        forall m | m in wave && m.id == id ensures m == n {
          SameIdSameNode(nodes, m, n);
        }
      }
    }
  }

  /** Exactly one outcome per action, none for anything else, and the six statuses add up to the batch. */
  lemma OneOutcomePerAction(actions: seq<Node>, outcomes: seq<Outcome>)
    requires DistinctIds(actions) && Covers(outcomes, actions)
    ensures forall id :: Mentions(outcomes, id) == if id in IdsOf(actions) then 1 else 0
    ensures Count(outcomes, Succeeded) + Count(outcomes, Failed) + Count(outcomes, Denied)
            + Count(outcomes, AwaitingApproval) + Count(outcomes, AlreadyCommitted) + Count(outcomes, Skipped)
                == |actions|
  {
    forall id ensures Mentions(outcomes, id) == if id in IdsOf(actions) then 1 else 0 {
      if id in IdsOf(actions) {
        var k :| 0 <= k < |actions| && actions[k].id == id;
        CarriedOnce(actions, k);
      } else {
        NotCarried(actions, id);
      }
    }
    SixStatusesSum(outcomes);
  }

  function ChainOfThree(): seq<Node> { [Node("a", []), Node("b", ["a"]), Node("c", ["b"])] }

  lemma ChainGraph()
    ensures GraphOf(ChainOfThree()) == map["a" := [], "b" := ["a"], "c" := ["b"]]
  {
    var nodes := ChainOfThree();
    assert nodes[..2] == [Node("a", []), Node("b", ["a"])];
    assert nodes[..2][..1] == [Node("a", [])];
    assert GraphOf([Node("a", [])]) == map["a" := []];
    assert GraphOf(nodes[..2]) == map["a" := [], "b" := ["a"]];
  }

  /** Skipping is by direct dependency only: an action below a skipped one still runs. */
  lemma SkippingIsNotTransitive()
    returns (nodes: seq<Node>, depth: map<string, nat>, ran: map<string, Outcome>)
    ensures Setting(nodes, GraphOf(nodes), depth, ran)
    ensures "a" in GraphOf(nodes) && "b" in GraphOf(nodes) && "c" in GraphOf(nodes)
    ensures GraphOf(nodes)["b"] == ["a"] && GraphOf(nodes)["c"] == ["b"]
    ensures ran["a"].status.Failed?
    ensures OutcomeOf(GraphOf(nodes), depth, ran, "b").status.Skipped?
    ensures OutcomeOf(GraphOf(nodes), depth, ran, "c") == ran["c"]
  {
    nodes, depth := ChainOfThree(), map["a" := 0, "b" := 1, "c" := 2];
    ran := map["a" := Outcome("a", Failed, false), "b" := Outcome("b", Succeeded, false),
        "c" := Outcome("c", Succeeded, false)];
    ChainGraph();
    ChainOutcomes(GraphOf(nodes), depth, ran);
  }

  lemma ChainOutcomes(g: Graph, depth: map<string, nat>, ran: map<string, Outcome>)
    requires Ranked(g, depth) && g.Keys <= ran.Keys
    requires "a" in g && "b" in g && "c" in g && g["a"] == [] && g["b"] == ["a"] && g["c"] == ["b"]
    requires ran["a"].status.Failed?
    ensures OutcomeOf(g, depth, ran, "b").status.Skipped? && OutcomeOf(g, depth, ran, "c") == ran["c"]
  {
    assert OutcomeOf(g, depth, ran, "a") == ran["a"];
    assert "a" in g["b"] && Blocks(OutcomeOf(g, depth, ran, "a"));
    assert OutcomeOf(g, depth, ran, "b") == Outcome("b", Skipped, false);
    assert !Blocks(OutcomeOf(g, depth, ran, "b"));
  }
}
