/** The in-process lock manager: leases that expire, and waiters that are woken exactly once. */
module Locks {
  import opened Wrappers

  datatype Entry = Entry(token: nat, expiresAt: int)

  /** The handle an acquisition returned, as its holder sees it. */
  datatype Handle = Handle(key: string, expiresAt: int, released: bool)

  /** The manager between two awaits.  Tokens and waiters are numbered in the order they were made, `timers`
      are the waiters whose timer has not fired, `homes` says which key a waiter waits for, and `twice` records
      that a waiter was woken again. */
  datatype State = State(
    now: int, entries: map<string, Entry>, handles: seq<Handle>,
    waiting: map<string, seq<nat>>, homes: seq<string>, timers: set<nat>, woken: set<nat>, twice: bool)

  datatype Mode = Wait | NoWait | Aborted

  datatype Step =
    | TryAcquire(key: string, ttl: int, mode: Mode)
    | Release(key: string, token: nat)
    | Extend(key: string, token: nat, ttl: int)
    | TimerFires(waiter: nat)
    | Tick(elapsed: nat)

  const INITIAL := State(0, map[], [], map[], [], {}, {}, false)

  function Purge(s: State, key: string): State {
    if key in s.entries && s.entries[key].expiresAt <= s.now then s.(entries := s.entries - {key}) else s
  }

  function Queue(s: State, key: string): seq<nat> {
    if key in s.waiting then s.waiting[key] else []
  }

  function Wake(s: State, waiter: nat): State {
    s.(woken := s.woken + {waiter}, twice := s.twice || waiter in s.woken)
  }

  /** One pass of the loop in `acquire`: a grant, a refusal, or a new waiter. */
  function Attempt(s: State, key: string, ttl: int, mode: Mode): State {
    var p := Purge(s, key);
    if key !in p.entries then
      p.(entries := p.entries[key := Entry(|p.handles|, p.now + ttl)],
          handles := p.handles + [Handle(key, p.now + ttl, false)])
    else if mode != Wait then p
    else
      p.(waiting := p.waiting[key := Queue(p, key) + [|p.homes|]], homes := p.homes + [key],
          timers := p.timers + {|p.homes|})
  }

  function Owns(s: State, key: string, token: nat): bool {
    key in s.entries && s.entries[key].token == token
  }

  /** Whoever calls it, a release wakes the first waiter; it frees the lock only for the token that holds it. */
  function Freed(s: State, key: string, token: nat): State
    requires token < |s.handles|
  {
    var marked := s.(handles := s.handles[token := s.handles[token].(released := true)]);
    if Owns(s, key, token) then marked.(entries := s.entries - {key}) else marked
  }

  function WakeFirst(s: State, key: string): State {
    if Queue(s, key) == [] then s else Wake(s.(waiting := s.waiting[key := Queue(s, key)[1..]]), Queue(s, key)[0])
  }

  function Prolong(s: State, key: string, token: nat, ttl: int): State
    requires token < |s.handles|
  {
    if Owns(s, key, token) then
      s.(entries := s.entries[key := Entry(token, s.now + ttl)],
         handles := s.handles[token := s.handles[token].(expiresAt := s.now + ttl)])
    else s
  }

  function IndexOf(queue: seq<nat>, waiter: nat): (i: nat)
    ensures i <= |queue| && (i < |queue| ==> queue[i] == waiter) && (i == |queue| ==> waiter !in queue)
  {
    if queue == [] || queue[0] == waiter then 0 else 1 + IndexOf(queue[1..], waiter)
  }

  function Remove(queue: seq<nat>, i: nat): seq<nat>
    requires i < |queue|
  {
    queue[..i] + queue[i + 1..]
  }

  /** The timer of a waiter: it does nothing when a release was faster. */
  function Fire(s: State, waiter: nat): State
    requires waiter < |s.homes|
  {
    var key := s.homes[waiter];
    var i := IndexOf(Queue(s, key), waiter);
    var fired := s.(timers := s.timers - {waiter});
    if i == |Queue(s, key)| then fired else Wake(fired.(waiting := s.waiting[key := Remove(Queue(s, key), i)]), waiter)
  }

  /** A handle is only used for its own key; a timer fires once. */
  predicate Enabled(s: State, step: Step) {
    match step
    case Release(key, token) => token < |s.handles| && s.handles[token].key == key
    case Extend(key, token, _) => token < |s.handles| && s.handles[token].key == key
    case TimerFires(waiter) => waiter < |s.homes| && waiter in s.timers
    case _ => true
  }

  function Next(s: State, step: Step): State
    requires Enabled(s, step)
  {
    match step
    case TryAcquire(key, ttl, mode) => Attempt(s, key, ttl, mode)
    case Release(key, token) => WakeFirst(Freed(s, key, token), key)
    case Extend(key, token, ttl) => Prolong(s, key, token, ttl)
    case TimerFires(waiter) => Fire(s, waiter)
    case Tick(elapsed) => s.(now := s.now + elapsed)
  }

  function Run(steps: seq<Step>): State {
    if steps == [] then INITIAL
    else
      var before, step := Run(steps[..|steps| - 1]), steps[|steps| - 1];
      if Enabled(before, step) then Next(before, step) else before
  }

  // ------------------------------------------------------------------ leases

  /** The holder of this handle may believe it holds the lock. */
  predicate Believes(s: State, token: nat) {
    token < |s.handles| && !s.handles[token].released && s.handles[token].expiresAt > s.now
  }

  predicate Backed(s: State, token: nat) {
    token < |s.handles| && s.handles[token].key in s.entries
    && s.entries[s.handles[token].key] == Entry(token, s.handles[token].expiresAt)
  }

  predicate EntryOk(s: State, key: string)
    requires key in s.entries
  {
    var t := s.entries[key].token;
    t < |s.handles| && s.handles[t] == Handle(key, s.entries[key].expiresAt, false)
  }

  /** Every entry is the one its unreleased handle describes, and every live handle has its entry. */
  ghost predicate LeaseInv(s: State) {
    && (forall key | key in s.entries :: EntryOk(s, key))
    && (forall t: nat {:trigger Believes(s, t)} | Believes(s, t) :: Backed(s, t))
  }

  lemma PurgeKeepsLeases(s: State, key: string)
    requires LeaseInv(s)
    ensures LeaseInv(Purge(s, key)) && Purge(s, key).handles == s.handles && Purge(s, key).now == s.now
  {
    var p := Purge(s, key);
    forall t: nat | Believes(p, t) ensures Backed(p, t) {
      assert Believes(s, t) && Backed(s, t);
    }
    forall k | k in p.entries ensures EntryOk(p, k) {
      assert EntryOk(s, k);
    }
  }

  lemma GrantKeepsLeases(s: State, key: string, ttl: int)
    requires LeaseInv(s) && key !in s.entries
    ensures LeaseInv(s.(entries := s.entries[key := Entry(|s.handles|, s.now + ttl)],
              handles := s.handles + [Handle(key, s.now + ttl, false)]))
  {
    var g := s.(entries := s.entries[key := Entry(|s.handles|, s.now + ttl)],
        handles := s.handles + [Handle(key, s.now + ttl, false)]);
    forall t: nat | Believes(g, t) ensures Backed(g, t) {
      if t < |s.handles| {
        assert g.handles[t] == s.handles[t];
        assert Believes(s, t) && Backed(s, t);
      }
    }
    forall k | k in g.entries ensures EntryOk(g, k) {
      if k != key { assert EntryOk(s, k); }
    }
  }

  lemma FreedKeepsLeases(s: State, key: string, token: nat)
    requires LeaseInv(s) && token < |s.handles| && s.handles[token].key == key
    ensures LeaseInv(Freed(s, key, token))
  {
    var f := Freed(s, key, token);
    forall t: nat | Believes(f, t) ensures Backed(f, t) {
      assert t != token && Believes(s, t) && Backed(s, t);
    }
    forall k | k in f.entries ensures EntryOk(f, k) {
      assert EntryOk(s, k);
    }
  }

  lemma ProlongKeepsLeases(s: State, key: string, token: nat, ttl: int)
    requires LeaseInv(s) && token < |s.handles| && s.handles[token].key == key
    ensures LeaseInv(Prolong(s, key, token, ttl))
  {
    var p := Prolong(s, key, token, ttl);
    if Owns(s, key, token) { assert EntryOk(s, key); }
    forall t: nat | Believes(p, t) ensures Backed(p, t) {
      if t != token { assert Believes(s, t) && Backed(s, t); }
      if !Owns(s, key, token) { assert Believes(s, t) && Backed(s, t); }
    }
    forall k | k in p.entries ensures EntryOk(p, k) {
      assert EntryOk(s, k);
    }
  }

  /** Leases depend on nothing but entries and handles, and time only ends them. */
  lemma SameLeases(s: State, s': State)
    requires LeaseInv(s) && s'.entries == s.entries && s'.handles == s.handles && s'.now >= s.now
    ensures LeaseInv(s')
  {
    forall t: nat | Believes(s', t) ensures Backed(s', t) {
      assert Believes(s, t) && Backed(s, t);
    }
    forall k | k in s'.entries ensures EntryOk(s', k) {
      assert EntryOk(s, k);
    }
  }

  lemma TryKeepsLeases(s: State, key: string, ttl: int, mode: Mode)
    requires LeaseInv(s) && Enabled(s, TryAcquire(key, ttl, mode))
    ensures LeaseInv(Next(s, TryAcquire(key, ttl, mode)))
  {
    var p := Purge(s, key);
    PurgeKeepsLeases(s, key);
    if key !in p.entries { GrantKeepsLeases(p, key, ttl); } else { SameLeases(p, Next(s, TryAcquire(key, ttl, mode))); }
  }

  lemma ReleaseKeepsLeases(s: State, key: string, token: nat)
    requires LeaseInv(s) && Enabled(s, Step.Release(key, token))
    ensures LeaseInv(Next(s, Step.Release(key, token)))
  {
    FreedKeepsLeases(s, key, token);
    SameLeases(Freed(s, key, token), Next(s, Step.Release(key, token)));
  }

  lemma StepKeepsLeases(s: State, step: Step)
    requires LeaseInv(s) && Enabled(s, step)
    ensures LeaseInv(Next(s, step))
  {
    match step
    case TryAcquire(key, ttl, mode) => TryKeepsLeases(s, key, ttl, mode);
    case Release(key, token) => ReleaseKeepsLeases(s, key, token);
    case Extend(key, token, ttl) => ProlongKeepsLeases(s, key, token, ttl);
    case TimerFires(_) => SameLeases(s, Next(s, step));
    case Tick(_) => SameLeases(s, Next(s, step));
  }

  lemma {:induction false} RunKeepsLeases(steps: seq<Step>)
    ensures LeaseInv(Run(steps))
  {
    if steps != [] {
      RunKeepsLeases(steps[..|steps| - 1]);
      var before := Run(steps[..|steps| - 1]);
      if Enabled(before, steps[|steps| - 1]) { StepKeepsLeases(before, steps[|steps| - 1]); }
    }
  }

  /** Mutual exclusion: after any history, two handles of one key that are neither released nor expired are the same. */
  lemma AtMostOneHolder(steps: seq<Step>, a: nat, b: nat)
    requires var s := Run(steps);
             Believes(s, a) && Believes(s, b) && s.handles[a].key == s.handles[b].key
    ensures a == b
  {
    RunKeepsLeases(steps);
    assert Backed(Run(steps), a) && Backed(Run(steps), b);
  }

  /** An attempt is granted exactly when nobody holds the lock. */
  lemma GrantedIffNobodyHolds(steps: seq<Step>, key: string, ttl: int, mode: Mode)
    ensures var s := Run(steps);
            |Attempt(s, key, ttl, mode).handles| == |s.handles| + 1
            <==> forall t: nat {:trigger Believes(s, t)} | Believes(s, t) :: s.handles[t].key != key
  {
    RunKeepsLeases(steps);
    var s := Run(steps);
    if key in s.entries {
      assert EntryOk(s, key);
      if s.entries[key].expiresAt > s.now { assert Believes(s, s.entries[key].token); }
    }
    forall t: nat | Believes(s, t) && s.handles[t].key == key ensures key in Purge(s, key).entries {
      assert Backed(s, t);
    }
  }

  // ------------------------------------------------------------------ waiters

  predicate Queued(s: State, waiter: nat) {
    waiter < |s.homes| && waiter in Queue(s, s.homes[waiter])
  }

  predicate Distinct(queue: seq<nat>) {
    if queue == [] then true else queue[0] !in queue[1..] && Distinct(queue[1..])
  }

  predicate QueueOk(s: State, key: string) {
    Distinct(Queue(s, key)) && forall w | w in Queue(s, key) :: w < |s.homes| && s.homes[w] == key
  }

  /** Every waiter either waits, once, with its timer still to fire, or was woken exactly once. */
  ghost predicate WaiterInv(s: State) {
    && !s.twice
    && (forall key {:trigger QueueOk(s, key)} :: QueueOk(s, key))
    && (forall w: nat {:trigger Queued(s, w)} | w < |s.homes| :: Queued(s, w) <==> w !in s.woken)
    && (forall w: nat {:trigger Queued(s, w)} | Queued(s, w) :: w in s.timers)
    && (forall w | w in s.woken :: w < |s.homes|)
  }

  lemma {:induction false} RemoveMembers(queue: seq<nat>, i: nat)
    requires i < |queue| && Distinct(queue)
    ensures Distinct(Remove(queue, i))
    ensures forall w :: w in Remove(queue, i) <==> w in queue && w != queue[i]
  {
    if i == 0 {
      assert Remove(queue, 0) == queue[1..] && queue == [queue[0]] + queue[1..];
    } else {
      RemoveMembers(queue[1..], i - 1);
      assert Remove(queue, i) == [queue[0]] + Remove(queue[1..], i - 1);
      assert queue == [queue[0]] + queue[1..];
    }
  }

  lemma {:induction false} DistinctSnoc(queue: seq<nat>, w: nat)
    requires Distinct(queue) && w !in queue
    ensures Distinct(queue + [w])
  {
    if queue != [] {
      DistinctSnoc(queue[1..], w);
      assert (queue + [w])[1..] == queue[1..] + [w];
    }
  }

  lemma JoinKeepsWaiters(s: State, key: string)
    requires WaiterInv(s)
    ensures WaiterInv(s.(waiting := s.waiting[key := Queue(s, key) + [|s.homes|]], homes := s.homes + [key],
              timers := s.timers + {|s.homes|}))
  {
    var j := s.(waiting := s.waiting[key := Queue(s, key) + [|s.homes|]], homes := s.homes + [key],
        timers := s.timers + {|s.homes|});
    forall k ensures QueueOk(j, k) {
      assert QueueOk(s, k);
      if k == key { DistinctSnoc(Queue(s, key), |s.homes|); }
    }
    forall w: nat | w < |j.homes| ensures (Queued(j, w) <==> w !in j.woken) && (Queued(j, w) ==> w in j.timers) {
      if w < |s.homes| {
        assert j.homes[w] == s.homes[w];
        assert Queued(j, w) == Queued(s, w);
      }
    }
  }

  /** Taking a waiter out of its queue and waking it; `fired` is its timer if that is what woke it. */
  lemma WakeKeepsWaiters(s: State, key: string, i: nat, fired: set<nat>)
    requires WaiterInv(s) && i < |Queue(s, key)| && fired <= {Queue(s, key)[i]}
    ensures WaiterInv(Wake(s.(waiting := s.waiting[key := Remove(Queue(s, key), i)], timers := s.timers - fired),
              Queue(s, key)[i]))
  {
    var waiter := Queue(s, key)[i];
    var t := Wake(s.(waiting := s.waiting[key := Remove(Queue(s, key), i)], timers := s.timers - fired), waiter);
    assert QueueOk(s, key);
    assert waiter in Queue(s, key) && s.homes[waiter] == key;
    assert Queued(s, waiter);
    RemoveMembers(Queue(s, key), i);
    forall k ensures QueueOk(t, k) {
      assert QueueOk(s, k);
    }
    forall w: nat | w < |t.homes| ensures (Queued(t, w) <==> w !in t.woken) && (Queued(t, w) ==> w in t.timers) {
      assert Queued(t, w) <==> Queued(s, w) && w != waiter;
    }
  }

  /** What changes neither queues, timers nor wake-ups keeps the waiters as they are. */
  lemma SameWaiters(s: State, s': State)
    requires WaiterInv(s) && s'.waiting == s.waiting && s'.homes == s.homes && s'.woken == s.woken
              && s'.twice == s.twice
    requires forall w | w in s.timers && w !in s'.timers :: w < |s.homes| && !Queued(s, w)
    ensures WaiterInv(s')
  {
    forall k ensures QueueOk(s', k) {
      assert QueueOk(s, k);
    }
    forall w: nat | w < |s'.homes| ensures (Queued(s', w) <==> w !in s'.woken) && (Queued(s', w) ==> w in s'.timers) {
      assert Queued(s', w) == Queued(s, w);
    }
  }

  lemma StepKeepsWaiters(s: State, step: Step)
    requires WaiterInv(s) && Enabled(s, step)
    ensures WaiterInv(Next(s, step))
  {
    match step
    case TryAcquire(key, ttl, mode) =>
      SameWaiters(s, Purge(s, key));
      if key in Purge(s, key).entries && mode == Wait {
        JoinKeepsWaiters(Purge(s, key), key);
      } else {
        SameWaiters(s, Next(s, step));
      }
    case Release(key, token) =>
      var f := Freed(s, key, token);
      SameWaiters(s, f);
      if Queue(f, key) != [] {
        assert Remove(Queue(f, key), 0) == Queue(f, key)[1..] && f.timers - {} == f.timers;
        WakeKeepsWaiters(f, key, 0, {});
      }
    case Extend(key, token, ttl) => SameWaiters(s, Next(s, step));
    case TimerFires(waiter) =>
      var key := s.homes[waiter];
      var i := IndexOf(Queue(s, key), waiter);
      if i < |Queue(s, key)| { WakeKeepsWaiters(s, key, i, {waiter}); } else { SameWaiters(s, Next(s, step)); }
    case Tick(_) => SameWaiters(s, Next(s, step));
  }

  /** Over every history: no waiter is woken twice, and none is forgotten: one that was not woken still stands in
      its queue with its timer to come. */
  lemma {:induction false} RunKeepsWaiters(steps: seq<Step>)
    ensures WaiterInv(Run(steps))
  {
    if steps != [] {
      RunKeepsWaiters(steps[..|steps| - 1]);
      var before := Run(steps[..|steps| - 1]);
      if Enabled(before, steps[|steps| - 1]) { StepKeepsWaiters(before, steps[|steps| - 1]); }
    }
  }

  class InMemoryLockManager {
    var entries: map<string, Entry>
    var waiting: map<string, seq<nat>>
    ghost var now: int
    ghost var handles: seq<Handle>
    ghost var homes: seq<string>
    ghost var timers: set<nat>
    ghost var woken: set<nat>
    ghost var twice: bool

    constructor ()
      ensures Abs() == INITIAL
    {
      entries, waiting := map[], map[];
      now, handles, homes, timers, woken, twice := 0, [], [], {}, {}, false;
    }

    ghost function Abs(): State
      reads this
    {
      State(now, entries, handles, waiting, homes, timers, woken, twice)
    }

    /** One pass of the loop in `acquire` at time `clock`, up to its next await. */
    method Acquire(key: string, ttl: int, mode: Mode, clock: int, token: nat, waiter: nat)
      returns (granted: bool, expiresAt: int)
      requires clock == now && token == |handles| && waiter == |homes|
      modifies this
      ensures Abs() == Attempt(old(Abs()), key, ttl, mode)
      ensures granted <==> |handles| == |old(handles)| + 1
      ensures granted ==> handles[token] == Handle(key, expiresAt, false)
      ensures granted <==> key !in old(entries) || old(entries)[key].expiresAt <= clock
      ensures granted ==> expiresAt == clock + ttl && entries == old(entries)[key := Entry(token, clock + ttl)]
      ensures granted ==> waiting == old(waiting) && timers == old(timers)
      ensures !granted ==> entries == old(entries) && handles == old(handles)
      ensures !granted && mode != Wait ==> waiting == old(waiting) && timers == old(timers) && homes == old(homes)
      ensures !granted && mode == Wait ==>
                && waiting == old(waiting)[key := (if key in old(waiting) then old(waiting)[key] else []) + [waiter]]
                && timers == old(timers) + {waiter} && homes == old(homes) + [key]
      ensures woken == old(woken)
    {
      granted, expiresAt := false, clock + ttl;
      if key in entries && entries[key].expiresAt <= clock { entries := entries - {key}; }
      if key !in entries {
        entries := entries[key := Entry(token, expiresAt)];
        handles := handles + [Handle(key, expiresAt, false)];
        granted := true;
        return;
      }
      if mode != Wait { return; }
      var queue := if key in waiting then waiting[key] else [];
      waiting := waiting[key := queue + [waiter]];
      homes, timers := homes + [key], timers + {waiter};
    }

    method Release(key: string, token: nat) returns (next: Option<nat>)
      requires Enabled(Abs(), Step.Release(key, token))
      modifies this
      ensures Abs() == Next(old(Abs()), Step.Release(key, token))
      ensures next == if Queue(old(Abs()), key) == [] then None else Some(Queue(old(Abs()), key)[0])
      ensures next.Some? ==> next.value in woken && Queue(Abs(), key) == Queue(old(Abs()), key)[1..]
      ensures next.Some? <==> key in old(waiting) && |old(waiting)[key]| > 0
      ensures next.Some? ==> next.value == old(waiting)[key][0] && woken == old(woken) + {next.value}
      ensures next.Some? ==> waiting == old(waiting)[key := old(waiting)[key][1..]]
      ensures next.None? ==> waiting == old(waiting) && woken == old(woken)
      ensures entries == if key in old(entries) && old(entries)[key].token == token
                         then old(entries) - {key} else old(entries)
    {
      next := None;
      handles := handles[token := handles[token].(released := true)];
      if key in entries && entries[key].token == token { entries := entries - {key}; }
      if key in waiting && |waiting[key]| > 0 {
        next := Some(waiting[key][0]);
        twice, woken := twice || next.value in woken, woken + {next.value};
        waiting := waiting[key := waiting[key][1..]];
      }
    }

    method Extend(key: string, token: nat, ttl: int, clock: int) returns (ok: bool)
      requires Enabled(Abs(), Step.Extend(key, token, ttl)) && clock == now
      modifies this
      ensures Abs() == Next(old(Abs()), Step.Extend(key, token, ttl))
      ensures ok <==> Owns(old(Abs()), key, token)
      ensures ok <==> key in old(entries) && old(entries)[key].token == token
      ensures entries == if ok then old(entries)[key := Entry(token, clock + ttl)] else old(entries)
      ensures handles[token].expiresAt == if ok then clock + ttl else old(handles)[token].expiresAt
      ensures waiting == old(waiting) && woken == old(woken)
    {
      if key !in entries || entries[key].token != token { return false; }
      entries := entries[key := Entry(token, clock + ttl)];
      handles := handles[token := handles[token].(expiresAt := clock + ttl)];
      return true;
    }

    method OnTimer(key: string, waiter: nat) returns (woke: bool)
      requires Enabled(Abs(), TimerFires(waiter)) && key == homes[waiter]
      modifies this
      ensures Abs() == Next(old(Abs()), TimerFires(waiter))
      ensures woke <==> Queued(old(Abs()), waiter)
      ensures woke <==> key in old(waiting) && waiter in old(waiting)[key]
      ensures woken == if woke then old(woken) + {waiter} else old(woken)
      ensures timers == old(timers) - {waiter} && entries == old(entries)
      ensures woke ==> var queue := old(waiting)[key];
                exists i | 0 <= i < |queue| ::
                  queue[i] == waiter && waiting == old(waiting)[key := queue[..i] + queue[i + 1..]]
      ensures !woke ==> waiting == old(waiting)
    {
      var queue := if key in waiting then waiting[key] else [];
      var i := IndexOf(queue, waiter);
      timers := timers - {waiter};
      woke := i < |queue|;
      if woke {
        waiting := waiting[key := queue[..i] + queue[i + 1..]];
        twice, woken := twice || waiter in woken, woken + {waiter};
      }
    }
  }
}
