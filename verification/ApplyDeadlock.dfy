/** The parallel Apply never deadlocks, and records completion exactly. */
module ApplyDeadlock {
  import opened Wrappers
  import opened ApplyProgram
  import opened ApplyMachine
  import opened ApplyInvariant
  import opened ApplyPreserve
  import opened ApplyWorkers

  predicate Unfinished(s: State, c: nat) { c < |s.callers| && !s.callers[c].wait.Returned? }

  /** An unfinished caller of the deepest unfinished level. */
  lemma {:induction false} Deepest(s: State, c: nat, n: nat) returns (d: nat)
    requires c < n <= |s.callers| && Unfinished(s, c)
    ensures d < n && Unfinished(s, d)
    ensures forall e: nat :: e < n && Unfinished(s, e) ==> s.callers[e].level <= s.callers[d].level
    decreases n
  {
    if n == 1 { return 0; }
    if c < n - 1 {
      d := Deepest(s, c, n - 1);
      if Unfinished(s, n - 1) && s.callers[n - 1].level > s.callers[d].level { d := n - 1; }
    } else if e: nat :| e < n - 1 && Unfinished(s, e) {
      d := Deepest(s, e, n - 1);
      if s.callers[c].level > s.callers[d].level { d := c; }
    } else {
      d := c;
    }
  }

  /** A worker of the deepest unfinished level waits for nobody: it can step unless it is idle. */
  lemma BusyWorker(s: State, l: nat, j: nat)
    requires Inv(s) && IsWorker(s, l, j) && !s.pools[l][j].act.Idle?
    requires forall e: nat :: Unfinished(s, e) ==> s.callers[e].level <= l
    ensures WorkerEnabled(s, l, j)
  {
    assert WorkerOk(s, l, j);
    var a := s.pools[l][j].act;
    if a.InApply? { assert Unfinished(s, a.child); }
  }

  lemma IdleHoldNothing(pool: seq<Worker>, u: Unit)
    requires forall j :: 0 <= j < |pool| ==> pool[j].act.Idle?
    ensures Held(pool, u) == 0
  {
    assert Some(u) !in Holding(pool);
  }

  /** Nothing queued, nothing held, and the producer gone: everything is done. */
  lemma AllDone(k: Caller, pool: seq<Worker>, c: nat)
    requires CallerOk(k) && UnitsAt(k, [], pool, c) && k.prod.Exited?
    requires forall j :: 0 <= j < |pool| ==> pool[j].act.Idle?
    ensures k.finished == k.total
  {
    var accepted := Accepted(k.call.events, k.next);
    forall i | i in accepted ensures i in k.done {
      assert UnitOk(k, [], pool, Unit(c, i));
      IdleHoldNothing(pool, Unit(c, i));
    }
    assert k.done == accepted;
  }

  /** The waiting caller's level has a step: of its producer, or of one of its workers. */
  lemma LevelStep(s: State, c: nat) returns (step: Step)
    requires Inv(s) && Unfinished(s, c) && s.callers[c].wait.Waiting?
    requires forall e: nat :: Unfinished(s, e) ==> s.callers[e].level <= s.callers[c].level
    ensures Enabled(s, step)
  {
    var k := s.callers[c];
    var l := k.level;
    assert CallerOk(k) && LevelOk(s, k) && UnitsOk(s, c) && NotifyOk(s, c);
    if ProducerEnabled(s, c) { return ProducerStep(c); }
    if j: nat :| j < |s.pools[l]| && !s.pools[l][j].act.Idle? {
      BusyWorker(s, l, j);
      return WorkerStep(l, j);
    }
    if s.queues[l] == [] { AllDone(k, s.pools[l], c); }
    assert s.queues[l] != [];
    assert EntryOk(s, l, s.queues[l][0]);
    assert s.pools[l][0].act.Idle?;
    return WorkerStep(l, 0);
  }

  /** In every state that satisfies the invariant, an unfinished call leaves some thread able to step. */
  lemma SomeStep(s: State, c: nat) returns (step: Step)
    requires Inv(s) && Unfinished(s, c)
    ensures Enabled(s, step)
  {
    if s.lock.Some? { return WaiterStep(s.lock.value); }
    var d := Deepest(s, c, |s.callers|);
    assert LevelOk(s, s.callers[d]) && ParentOk(s, d) && CallerOk(s.callers[d]);
    if s.callers[d].wait.Waiting? {
      step := LevelStep(s, d);
    } else {
      step := WaiterStep(d);
    }
  }

  /** Deadlock freedom, for every program, number of threads and schedule. */
  lemma DeadlockFree(call: Call, threads: nat, attr: int, s: State)
    requires Reachable(call, threads, attr, s)
    requires exists c: nat :: Unfinished(s, c)
    ensures exists step :: Enabled(s, step)
  {
    ReachableInv(call, threads, attr, s);
    var c: nat :| Unfinished(s, c);
    var step := SomeStep(s, c);
  }

  // ---------------------------------------------------------------------------
  // Pools
  // ---------------------------------------------------------------------------

  lemma {:induction false} ThreadsFixed(s: State, steps: seq<Step>, s': State)
    requires Run(s, steps, s')
    ensures s'.threads == s.threads
    decreases |steps|
  {
    if steps != [] { ThreadsFixed(Next(s, steps[0]), steps[1..], s'); }
  }

  /** Nobody is between incrementing the level and adding its pool. */
  predicate Settled(s: State) {
    && |s.callers| > 0 && !s.callers[0].wait.FirstPool?
    && forall c :: 0 <= c < |s.callers| ==> !s.callers[c].wait.AddQueue? && !s.callers[c].wait.AddPool?
  }

  /** Whatever the races, there is one queue and one pool of `threads` workers for each level up to
      current_max_recursive_level; at most one thread is adding a level; and a call whose producer
      runs finds its queue and its pool. */
  lemma OnePoolPerLevel(call: Call, threads: nat, attr: int, s: State)
    requires Reachable(call, threads, attr, s)
    ensures Settled(s) ==> |s.queues| == |s.pools| == s.maxLevel + 1
    ensures forall l :: 0 <= l < |s.pools| ==> |s.pools[l]| == threads
    ensures forall c, d :: 0 <= c < d < |s.callers| ==> !(InLock(s.callers[c].wait) && InLock(s.callers[d].wait))
    ensures forall c :: 0 <= c < |s.callers| && !s.callers[c].prod.NotStarted? ==>
      s.callers[c].level < |s.queues| && s.callers[c].level < |s.pools|
  {
    ReachableInv(call, threads, attr, s);
    var steps :| Run(Init(call, threads, attr), steps, s);
    ThreadsFixed(Init(call, threads, attr), steps, s);
    forall c | 0 <= c < |s.callers| && !s.callers[c].prod.NotStarted?
      ensures s.callers[c].level < |s.queues| && s.callers[c].level < |s.pools|
    {
      assert CallerOk(s.callers[c]) && LevelOk(s, s.callers[c]);
    }
  }

  // ---------------------------------------------------------------------------
  // Completion
  // ---------------------------------------------------------------------------

  /** Every accepted argument was handed to the function exactly once, and no other argument was. */
  ghost predicate PerformedOnce(k: Caller) {
    && k.done == Accepted(k.call.events, Stop(k.call.events))
    && forall i: nat :: multiset(k.taken)[i] == B2N(i in Accepted(k.call.events, Stop(k.call.events)))
  }

  lemma CompletedDone(k: Caller, q: seq<Entry>, pool: seq<Worker>, c: nat)
    requires CallerOk(k) && UnitsAt(k, q, pool, c) && k.completed
    ensures PerformedOnce(k) && k.total == |k.done| && k.next == Stop(k.call.events)
    ensures k.credited == k.done
  {
    SubsetSize(k.done, Accepted(k.call.events, k.next));
    forall i: nat ensures multiset(k.taken)[i] == B2N(i in Accepted(k.call.events, Stop(k.call.events))) {
      assert UnitOk(k, q, pool, Unit(c, i));
    }
  }

  /** call_completed_map[c] is true only after every task accepted for c was performed exactly once. */
  lemma CompletionSound(call: Call, threads: nat, attr: int, s: State, c: nat)
    requires Reachable(call, threads, attr, s) && c < |s.callers| && s.callers[c].completed
    ensures PerformedOnce(s.callers[c])
  {
    ReachableInv(call, threads, attr, s);
    var k := s.callers[c];
    assert CallerOk(k) && UnitsOk(s, c);
    CompletedDone(k, Queue(s, k.level), PoolAt(s, k.level), c);
  }

  /** The threads of caller `c` have nothing left to do for it. */
  ghost predicate Quiescent(s: State, c: nat)
    requires c < |s.callers|
  {
    && s.callers[c].prod.Exited?
    && Accepted(s.callers[c].call.events, s.callers[c].next) <= s.callers[c].done
    && forall j :: 0 <= j < |PoolAt(s, s.callers[c].level)| ==>
         var a := PoolAt(s, s.callers[c].level)[j].act;
         !(a.CompareDone? && a.caller == c) && !(a.NotifyDone? && a.caller == c)
  }

  /** Once the producer has exited and all tasks are performed, also when there were none, completion
      is recorded and the waiter is awake. */
  lemma CompletionRecorded(call: Call, threads: nat, attr: int, s: State, c: nat)
    requires Reachable(call, threads, attr, s) && c < |s.callers| && Quiescent(s, c)
    ensures s.callers[c].completed && !s.callers[c].wait.Waiting?
  {
    ReachableInv(call, threads, attr, s);
    var k := s.callers[c];
    assert CallerOk(k) && NotifyOk(s, c);
    assert k.done == Accepted(k.call.events, k.next);
  }

  /** No wake-up is missed: a caller whose call is completed is never found waiting, whatever happens
      between its look at the map and its wait. */
  lemma NoMissedWakeUp(call: Call, threads: nat, attr: int, s: State, c: nat)
    requires Reachable(call, threads, attr, s) && c < |s.callers| && s.callers[c].completed
    ensures !s.callers[c].wait.Waiting?
  {
    ReachableInv(call, threads, attr, s);
    assert CallerOk(s.callers[c]);
  }
}
