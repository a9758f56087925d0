/** `mapConcurrent`: a fixed number of workers draw indices from a shared cursor. */
module WorkerPool {
  // A worker's turn runs from one await to the next, so the interleavings are those of two kinds of step.

  /** About to read the cursor, waiting for the call with an index, or finished. */
  datatype Worker = Ready | InCall(index: nat) | Done

  datatype Pool<T, R> = Pool(items: seq<T>, cursor: nat, workers: seq<Worker>, results: map<nat, R>, calls: seq<nat>)

  datatype Step<R> = Take(worker: nat) | Return(worker: nat, result: R)

  function WorkerCount(concurrency: int, items: nat): nat {
    var least := if concurrency < items then concurrency else items;
    if least < 1 then 1 else least
  }

  function Begin<T, R>(items: seq<T>, concurrency: int): Pool<T, R> {
    Pool(items, 0, seq(WorkerCount(concurrency, |items|), _ => Ready), map[], [])
  }

  predicate Enabled<T, R>(p: Pool<T, R>, step: Step<R>) {
    && step.worker < |p.workers|
    && if step.Take? then p.workers[step.worker].Ready? else p.workers[step.worker].InCall?
  }

  function Apply<T, R>(p: Pool<T, R>, step: Step<R>): Pool<T, R>
    requires Enabled(p, step)
  {
    match step
    case Take(k) =>
      var index := p.cursor;
      if index >= |p.items| then p.(cursor := p.cursor + 1, workers := p.workers[k := Done])
      else p.(cursor := p.cursor + 1, workers := p.workers[k := InCall(index)], calls := p.calls + [index])
    case Return(k, r) =>
      p.(workers := p.workers[k := Ready], results := p.results[p.workers[k].index := r])
  }

  function Run<T, R>(p: Pool<T, R>, steps: seq<Step<R>>): Pool<T, R>
    decreases |steps|
  {
    if steps == [] then p
    else
      var before := Run(p, steps[..|steps| - 1]);
      var step := steps[|steps| - 1];
      if Enabled(before, step) then Apply(before, step) else before
  }

  ghost predicate InFlight<T, R>(p: Pool<T, R>, i: nat) {
    exists k :: 0 <= k < |p.workers| && p.workers[k] == InCall(i)
  }

  /** Indices are handed out in order, once each; a handed-out index is either in flight at exactly one
      worker or has its result. */
  ghost predicate Inv<T, R>(p: Pool<T, R>) {
    && |p.calls| == (if p.cursor < |p.items| then p.cursor else |p.items|)
    && (forall i | 0 <= i < |p.calls| :: p.calls[i] == i)
    && (forall k | 0 <= k < |p.workers| && p.workers[k].InCall? ::
          p.workers[k].index < |p.calls| && p.workers[k].index !in p.results)
    && (forall k, l | 0 <= k < l < |p.workers| && p.workers[k].InCall? && p.workers[l].InCall? ::
          p.workers[k].index != p.workers[l].index)
    && (forall i | i in p.results :: i < |p.calls|)
    && (forall i: nat | i < |p.calls| :: i in p.results || InFlight(p, i))
    && (forall k | 0 <= k < |p.workers| && p.workers[k].Done? :: p.cursor > |p.items|)
  }

  lemma StepKeepsInv<T, R>(p: Pool<T, R>, step: Step<R>)
    requires Inv(p) && Enabled(p, step)
    ensures Inv(Apply(p, step))
  {
    var p' := Apply(p, step);
    var k := step.worker;
    forall i: nat | i < |p'.calls| ensures i in p'.results || InFlight(p', i) {
      if i < |p.calls| {
        if i !in p.results {
          var l :| 0 <= l < |p.workers| && p.workers[l] == InCall(i);
          if l != k { assert p'.workers[l] == InCall(i); }
        }
      } else {
        assert p'.workers[k] == InCall(i);
      }
    }
  }

  lemma {:induction false} RunKeepsInv<T, R>(items: seq<T>, concurrency: int, steps: seq<Step<R>>)
    ensures var p: Pool<T, R> := Run(Begin(items, concurrency), steps);
            Inv(p) && p.items == items && |p.workers| == WorkerCount(concurrency, |items|)
    decreases |steps|
  {
    if steps != [] {
      RunKeepsInv(items, concurrency, steps[..|steps| - 1]);
      var before: Pool<T, R> := Run(Begin(items, concurrency), steps[..|steps| - 1]);
      if Enabled(before, steps[|steps| - 1]) { StepKeepsInv(before, steps[|steps| - 1]); }
    }
  }

  function CallsInFlight(workers: seq<Worker>): nat {
    if workers == [] then 0
    else CallsInFlight(workers[..|workers| - 1]) + if workers[|workers| - 1].InCall? then 1 else 0
  }

  lemma {:induction false} AtMostAllInFlight(workers: seq<Worker>)
    ensures CallsInFlight(workers) <= |workers|
  {
    if workers != [] { AtMostAllInFlight(workers[..|workers| - 1]); }
  }

  /** In every interleaving: each index is handed out at most once and in order, no more calls are in flight
      than there are workers, and a result, once stored, stays at its index whatever happens next. */
  lemma EveryInterleaving<T, R>(items: seq<T>, concurrency: int, steps: seq<Step<R>>, next: Step<R>)
    ensures var p: Pool<T, R> := Run(Begin(items, concurrency), steps);
            && (forall i | 0 <= i < |p.calls| :: p.calls[i] == i)
            && |p.calls| <= |items|
            && CallsInFlight(p.workers) <= WorkerCount(concurrency, |items|)
            && (1 <= concurrency <= |items| ==> |p.workers| == concurrency)
            && (1 <= |items| <= concurrency ==> |p.workers| == |items|)
            && (concurrency < 1 || items == [] ==> |p.workers| == 1)
            && (Enabled(p, next) ==> forall i | i in p.results ::
                  i in Apply(p, next).results && Apply(p, next).results[i] == p.results[i])
  {
    RunKeepsInv(items, concurrency, steps);
    var p: Pool<T, R> := Run(Begin(items, concurrency), steps);
    AtMostAllInFlight(p.workers);
  }

  /** When every worker is finished, every item was called exactly once and has its result. */
  lemma WhenAllDone<T, R>(items: seq<T>, concurrency: int, steps: seq<Step<R>>)
    requires var p: Pool<T, R> := Run(Begin(items, concurrency), steps);
             forall k | 0 <= k < |p.workers| :: p.workers[k].Done?
    ensures var p: Pool<T, R> := Run(Begin(items, concurrency), steps);
            && |p.calls| == |items|
            && (forall i | 0 <= i < |items| :: p.calls[i] == i)
            && (forall i :: i in p.results <==> 0 <= i < |items|)
  {
    RunKeepsInv(items, concurrency, steps);
    var p: Pool<T, R> := Run(Begin(items, concurrency), steps);
    assert p.workers[0].Done?;
  }

  /** In this interleaving every call answers what `f` says of its item. */
  ghost predicate Answered<T, R>(p: Pool<T, R>, steps: seq<Step<R>>, f: T -> R)
    decreases |steps|
  {
    steps == []
    || (&& Answered(p, steps[..|steps| - 1], f)
        && AnswersWith(Run(p, steps[..|steps| - 1]), steps[|steps| - 1], f))
  }

  predicate AnswersWith<T, R(==)>(p: Pool<T, R>, step: Step<R>, f: T -> R) {
    step.Return? && Enabled(p, step) && p.workers[step.worker].index < |p.items| ==>
      step.result == f(p.items[p.workers[step.worker].index])
  }

  /** Whatever the interleaving, a stored result is that of the item at its index. */
  lemma {:induction false} ResultsBelongToItems<T, R>(items: seq<T>, concurrency: int, steps: seq<Step<R>>, f: T -> R)
    requires Answered(Begin(items, concurrency), steps, f)
    ensures var p: Pool<T, R> := Run(Begin(items, concurrency), steps);
            forall i | i in p.results :: i < |items| && p.results[i] == f(items[i])
    decreases |steps|
  {
    if steps != [] {
      var shorter := steps[..|steps| - 1];
      ResultsBelongToItems(items, concurrency, shorter, f);
      RunKeepsInv<T, R>(items, concurrency, shorter);
    }
  }

  function Weight(worker: Worker): nat {
    match worker
    case Ready => 1
    case InCall(_) => 2
    case Done => 0
  }

  function TotalWeight(workers: seq<Worker>): nat {
    if workers == [] then 0 else TotalWeight(workers[..|workers| - 1]) + Weight(workers[|workers| - 1])
  }

  lemma {:induction false} UpdateWeight(workers: seq<Worker>, k: nat, worker: Worker)
    requires k < |workers|
    ensures TotalWeight(workers[k := worker]) == TotalWeight(workers) - Weight(workers[k]) + Weight(worker)
  {
    var last := |workers| - 1;
    if k < last {
      assert workers[k := worker][..last] == workers[..last][k := worker];
      UpdateWeight(workers[..last], k, worker);
    } else {
      assert workers[k := worker][..last] == workers[..last];
    }
  }

  /** How many turns are left, whatever the interleaving. */
  function TurnsLeft<T, R>(p: Pool<T, R>): int {
    2 * (|p.items| - |p.calls|) + TotalWeight(p.workers)
  }

  /** Every step uses up exactly one turn, and while turns are left some worker can move: every run of the
      pool finishes after exactly two turns per item and one per worker. */
  lemma EveryStepIsOneTurn<T, R>(p: Pool<T, R>, step: Step<R>)
    requires Inv(p) && Enabled(p, step)
    ensures TurnsLeft(Apply(p, step)) == TurnsLeft(p) - 1
    ensures TurnsLeft(p) > 0
  {
    var k := step.worker;
    UpdateWeight(p.workers, k, Apply(p, step).workers[k]);
    assert p.workers[k := Apply(p, step).workers[k]] == Apply(p, step).workers;
    AtLeastOne(p.workers, k);
  }

  lemma {:induction false} AtLeastOne(workers: seq<Worker>, k: nat)
    requires k < |workers| && !workers[k].Done?
    ensures TotalWeight(workers) > 0
  {
    if k < |workers| - 1 { AtLeastOne(workers[..|workers| - 1], k); }
  }

  lemma {:induction false} NoTurnsMeansDone(workers: seq<Worker>)
    ensures TotalWeight(workers) == 0 <==> forall k | 0 <= k < |workers| :: workers[k].Done?
  {
    if workers != [] {
      NoTurnsMeansDone(workers[..|workers| - 1]);
      var last := |workers| - 1;
      if forall k | 0 <= k < |workers| :: workers[k].Done? {
        forall k | 0 <= k < last ensures workers[..last][k].Done? {
          assert workers[k].Done?;
        }
        assert workers[last].Done?;
      } else if workers[last].Done? {
        var k :| 0 <= k < |workers| && !workers[k].Done?;
        assert !workers[..last][k].Done?;
      }
    }
  }

  /** A pool no worker of which can move is one in which every worker is finished. */
  lemma StuckMeansDone<T, R(0)>(p: Pool<T, R>, r: R)
    requires Inv(p)
    requires forall k: nat | k < |p.workers| :: !Enabled(p, Take(k)) && !Enabled(p, Return(k, r))
    ensures forall k | 0 <= k < |p.workers| :: p.workers[k].Done?
    ensures TotalWeight(p.workers) == 0
  {
    forall k: nat | k < |p.workers| ensures p.workers[k].Done? {
      assert !Enabled(p, Take(k)) && !Enabled(p, Return(k, r));
    }
    NoTurnsMeansDone(p.workers);
  }

  /** The shared state as the workers see it. */
  class ConcurrentMap<T, R> {
    const items: seq<T>
    var cursor: nat
    var workers: seq<Worker>
    var results: map<nat, R>
    ghost var calls: seq<nat>

    ghost function View(): Pool<T, R>
      reads this
    {
      Pool(items, cursor, workers, results, calls)
    }

    constructor (items: seq<T>, concurrency: int)
      ensures View() == Begin(items, concurrency)
    {
      this.items := items;
      cursor, results, calls := 0, map[], [];
      workers := seq(WorkerCount(concurrency, |items|), _ => Ready);
    }

    /** One turn of a worker up to its next await: the index it calls the function with, if any. */
    method TakeTurn(k: nat) returns (index: nat, called: bool)
      requires Enabled(View(), Take(k))
      modifies this
      ensures View() == Apply(old(View()), Take(k))
      ensures index == old(cursor) && (called <==> index < |items|)
    {
      index := cursor;
      cursor := cursor + 1;
      called := index < |items|;
      if called {
        workers := workers[k := InCall(index)];
        calls := calls + [index];
      } else {
        workers := workers[k := Done];
      }
    }

    method ReturnTurn(k: nat, r: R)
      requires Enabled(View(), Return(k, r))
      modifies this
      ensures View() == Apply(old(View()), Return(k, r))
    {
      results := results[workers[k].index := r];
      workers := workers[k := Ready];
    }
  }
}
