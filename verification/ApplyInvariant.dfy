/** What every step of the parallel Apply keeps. */
module ApplyInvariant {
  import opened Wrappers
  import opened ApplyProgram
  import opened ApplyMachine

  // ---------------------------------------------------------------------------
  // One caller by itself
  // ---------------------------------------------------------------------------

  predicate Producing(p: Producer) { p.NotStarted? || p.Fetch? || p.Put? || p.PublishError? }

  /** The producer has not enqueued its last task yet. */
  predicate BeforeLast(p: Producer) { Producing(p) || p.SetTotal? || p.PutLast? }

  predicate Unstarted(w: Waiter) { SettingUp(w) || w.StartProducer? }

  ghost predicate CallerOk(k: Caller) {
    var accepted := Accepted(k.call.events, k.next);
    && k.next <= Stop(k.call.events)
    && k.numTasks == |accepted|
    && (k.prod.NotStarted? <==> Unstarted(k.wait))
    && (k.prod.NotStarted? ==> k.next == 0)
    && (BeforeLast(k.prod) ==> (k.cur.None? <==> accepted == {}))
    && (k.prod.Put? ==> k.cur.Some? && k.prod.item != k.cur.value)
    && (!BeforeLast(k.prod) ==> k.cur.None?)
    && (!Producing(k.prod) ==> k.next == Stop(k.call.events))
    && k.failed == (!Producing(k.prod) && CallRaises(k.call))
    && k.total == (if Producing(k.prod) || k.prod.SetTotal? then -1 else k.numTasks)
    && k.finished == |k.done|
    && k.done <= k.credited <= accepted
    && (k.completed ==> k.total == k.finished)
    && (k.prod.Compare? ==> k.prod.seen <= k.finished)
    && (k.prod.Notify? ==> k.total == k.finished)
    && (k.prod.Exited? && k.total == 0 ==> k.completed)
    && (k.wait.Waiting? ==> !k.completed)
    && (k.wait.Returned? ==> k.completed)
  }

  // ---------------------------------------------------------------------------
  // Where an accepted argument is
  // ---------------------------------------------------------------------------

  function B2N(b: bool): nat { if b then 1 else 0 }

  /** The argument a worker is responsible for: from the queue to the counter. */
  function Holds(w: Worker): Option<Unit> {
    match w.act
    case Body(u, _) => Some(u)
    case InApply(u, _, _, _) => Some(u)
    case Record(u) => Some(u)
    case Handle(u) => Some(u)
    case Publish(u) => Some(u)
    case Count(u) => Some(u)
    case _ => None
  }

  function Holding(pool: seq<Worker>): (h: seq<Option<Unit>>)
    ensures |h| == |pool| && forall j :: 0 <= j < |h| ==> h[j] == Holds(pool[j])
  {
    seq(|pool|, j requires 0 <= j < |pool| => Holds(pool[j]))
  }

  function Queue(s: State, l: nat): seq<Entry> { if l < |s.queues| then s.queues[l] else [] }

  function PoolAt(s: State, l: nat): seq<Worker> { if l < |s.pools| then s.pools[l] else [] }

  function Queued(q: seq<Entry>, u: Unit): nat { multiset(q)[Work(u)] }

  function Held(pool: seq<Worker>, u: Unit): nat { multiset(Holding(pool))[Some(u)] }

  /** An accepted argument is in exactly one place: with the producer, in the queue, with one worker,
      or done; and the function was called on it once if and only if a worker has taken it. */
  predicate UnitOk(k: Caller, q: seq<Entry>, pool: seq<Worker>, u: Unit) {
    && B2N(k.cur == Some(u.item)) + B2N(k.prod == Put(u.item)) + Queued(q, u) + Held(pool, u)
       + B2N(u.item in k.done) == B2N(u.item in Accepted(k.call.events, k.next))
    && multiset(k.taken)[u.item] == Held(pool, u) + B2N(u.item in k.done)
    && (u.item in k.credited ==> multiset(k.taken)[u.item] > 0)
  }

  ghost predicate UnitsAt(k: Caller, q: seq<Entry>, pool: seq<Worker>, c: nat) {
    forall i: nat :: UnitOk(k, q, pool, Unit(c, i))
  }

  ghost predicate UnitsOk(s: State, c: nat)
    requires c < |s.callers|
  {
    UnitsAt(s.callers[c], Queue(s, s.callers[c].level), PoolAt(s, s.callers[c].level), c)
  }

  // ---------------------------------------------------------------------------
  // Levels, pools, and the lock that guards their creation
  // ---------------------------------------------------------------------------

  predicate InLock(w: Waiter) { w.CheckLevel? || w.AddQueue? || w.AddPool? || w.Unlock? }

  ghost predicate LevelsOk(s: State) {
    && 0 < s.threads
    && |s.callers| > 0
    && (s.lock.Some? ==> s.lock.value < |s.callers| && InLock(s.callers[s.lock.value].wait))
    && (forall c :: 0 <= c < |s.callers| && InLock(s.callers[c].wait) ==> s.lock == Some(c))
    && (forall l :: 0 <= l < |s.pools| ==> |s.pools[l]| == s.threads)
    && (forall c :: 1 <= c < |s.callers| ==> !s.callers[c].wait.FirstPool?)
    && (if s.callers[0].wait.FirstPool? then
          |s.queues| == |s.pools| == s.maxLevel == 0 && s.lock.None?
        else if s.lock.Some? && s.callers[s.lock.value].wait.AddQueue? then
          |s.queues| == |s.pools| == s.maxLevel
        else if s.lock.Some? && s.callers[s.lock.value].wait.AddPool? then
          |s.queues| == s.maxLevel + 1 && |s.pools| == s.maxLevel
        else |s.queues| == |s.pools| == s.maxLevel + 1)
    && s.callers[0].level == 0 && s.callers[0].parent == Main
    && (forall c :: 1 <= c < |s.callers| ==> s.callers[c].parent.ByWorker?)
  }

  ghost predicate LevelOk(s: State, k: Caller) {
    match k.wait
    case FirstPool => true
    case WantLock => k.level <= |s.pools|
    case CheckLevel => k.level <= |s.pools|
    case AddQueue => k.level == |s.pools|
    case AddPool => k.level == |s.pools|
    case _ => k.level < |s.queues| && k.level < |s.pools|
  }

  // ---------------------------------------------------------------------------
  // Threads that wait for each other
  // ---------------------------------------------------------------------------

  ghost predicate ParentOk(s: State, c: nat)
    requires c < |s.callers|
  {
    var k := s.callers[c];
    k.parent.ByWorker? && !k.wait.Returned? ==>
      && IsWorker(s, k.parent.level, k.parent.index)
      && s.pools[k.parent.level][k.parent.index].act.InApply?
      && s.pools[k.parent.level][k.parent.index].act.child == c
  }

  /** A worker about to compare or notify for caller `c` at its last count. */
  predicate AboutToNotify(w: Worker, c: nat, finished: nat) {
    w.act == NotifyDone(c) || w.act == CompareDone(c, finished)
  }

  /** Once every task is done, completion is recorded or some worker is about to record it. */
  ghost predicate NotifyOk(s: State, c: nat)
    requires c < |s.callers|
  {
    var k := s.callers[c];
    k.total >= 1 && k.finished == k.total && !k.completed ==>
      exists j :: 0 <= j < |PoolAt(s, k.level)| && AboutToNotify(PoolAt(s, k.level)[j], c, k.finished)
  }

  ghost predicate WorkerOk(s: State, l: nat, j: nat)
    requires IsWorker(s, l, j)
  {
    var w := s.pools[l][j];
    && (Holds(w).Some? ==>
          var u := Holds(w).value;
          && ValidUnit(s, u)
          && s.callers[u.caller].level == l
          && (u.item in s.callers[u.caller].credited <==> w.act.Count?))
    && match w.act
       case Idle => true
       case Body(u, k) => k <= Halt(TaskOf(s, u))
       case InApply(u, k, child, _) =>
         && k < |TaskOf(s, u).actions|
         && k <= Halt(TaskOf(s, u))
         && child < |s.callers|
         && TaskOf(s, u).actions[k] == CallApply(s.callers[child].call)
         && s.callers[child].level == l + 1
         && s.callers[child].parent == ByWorker(l, j)
         && !s.callers[child].wait.Returned?
       case Record(u) => !TaskFails(TaskOf(s, u))
       case Handle(u) => TaskFails(TaskOf(s, u))
       case Publish(u) => true
       case Count(u) => true
       case CompareDone(c, n) =>
         && c < |s.callers|
         && s.callers[c].level == l
         && n <= s.callers[c].finished
       case NotifyDone(c) =>
         && c < |s.callers|
         && s.callers[c].level == l
         && s.callers[c].total == s.callers[c].finished
  }

  ghost predicate EntryOk(s: State, l: nat, e: Entry) {
    e.Work? ==> ValidUnit(s, e.u) && s.callers[e.u.caller].level == l
  }

  // ---------------------------------------------------------------------------
  // The invariant
  // ---------------------------------------------------------------------------

  ghost predicate CallersOk(s: State) {
    forall c :: 0 <= c < |s.callers| ==> CallerOk(s.callers[c])
  }

  ghost predicate PlacesOk(s: State) {
    forall c :: 0 <= c < |s.callers| ==> UnitsOk(s, c)
  }

  ghost predicate StagesOk(s: State) {
    forall c :: 0 <= c < |s.callers| ==> LevelOk(s, s.callers[c]) && ParentOk(s, c)
  }

  ghost predicate NotifiesOk(s: State) {
    forall c :: 0 <= c < |s.callers| ==> NotifyOk(s, c)
  }

  ghost predicate WorkersOk(s: State) {
    forall l, j :: 0 <= l < |s.pools| && 0 <= j < |s.pools[l]| ==> WorkerOk(s, l, j)
  }

  ghost predicate EntriesOk(s: State) {
    forall l, i :: 0 <= l < |s.queues| && 0 <= i < |s.queues[l]| ==> EntryOk(s, l, s.queues[l][i])
  }

  ghost predicate Inv(s: State) {
    && LevelsOk(s)
    && CallersOk(s)
    && StagesOk(s)
    && WorkersOk(s)
    && EntriesOk(s)
    && PlacesOk(s)
    && NotifiesOk(s)
  }

  lemma InitInv(call: Call, threads: nat, attr: int)
    requires threads > 0
    ensures Inv(Init(call, threads, attr))
  {
    var k := Init(call, threads, attr).callers[0];
    assert Accepted(call.events, 0) == {};
  }
}
