/** The thread-mode parallel Apply as a state machine.

    Every atomic action of the original is one step: an operation on an AtomicDict or a queue, a
    block under a lock, or a piece of code that touches only its own thread. The threads are the one
    that called each Apply (it sets up the worker pool of its level and then waits), one producer per
    Apply, and `threads` workers per level. */
module ApplyMachine {
  import opened Wrappers
  import opened ApplyProgram

  const MAX_QUEUE_SIZE: nat := 32500

  /** One accepted argument of one Apply call. */
  datatype Unit = Unit(caller: nat, item: nat)

  datatype Entry = Work(u: Unit) | ZeroTasks(caller: nat)

  /** Where the thread that called Apply is. */
  datatype Waiter =
    | FirstPool     // the root call creates queue 0 and pool 0
    | WantLock      // a nested call acquires worker_checking_level_lock
    | CheckLevel    // holds the lock, compares its level with current_max_recursive_level
    | AddQueue      // has incremented current_max_recursive_level
    | AddPool       // has appended the task queue
    | Unlock
    | StartProducer
    | Check         // about to look at call_completed_map under need_pool_or_done_cond
    | Waiting       // blocked in need_pool_or_done_cond.wait()
    | Returned

  datatype Producer =
    | NotStarted
    | Fetch
    | Put(item: nat)  // about to enqueue last_task
    | PublishError    // the iterator raised and was handled: update the shared variables
    | SetTotal
    | PutLast
    | ReadDone        // about to read caller_id_finished_count
    | Compare(seen: nat)
    | Notify
    | Exited

  datatype Parent = Main | ByWorker(level: nat, index: nat)

  /** The per-caller entries of the shared maps, with the threads of one Apply call.

      `taken`, `credited`, `recorded` and `done` are history: the arguments handed to the function,
      and those whose deltas, results and completion were published. */
  datatype Caller = Caller(
    call: Call,
    level: nat,
    parent: Parent,
    wait: Waiter,
    prod: Producer,
    next: nat,            // events consumed
    numTasks: nat,
    cur: Option<nat>,     // the producer's cur_task
    failed: bool,         // unknown_exception is set
    total: int,           // total_tasks, -1 until the producer has finished
    finished: nat,        // caller_id_finished_count
    completed: bool,      // call_completed_map
    results: seq<Value>,  // global_return_values_map
    sharedVar: int,       // shared_vars_map
    lost: int,            // history: what raising nested calls made vanish
    base: int,            // the attribute in class_map's copy of the command
    prodAttr: int,        // the attribute in the producer's copy
    prodLast: int,        // and the value its updater saw last
    taken: seq<nat>,
    credited: set<nat>,
    recorded: set<nat>,
    done: set<nat>)

  datatype Activity =
    | Idle
    | Body(u: Unit, k: nat)  // about to perform action k of the function
    | InApply(u: Unit, k: nat, child: nat, saved: int)
    | Record(u: Unit)        // the function returned
    | Handle(u: Unit)        // the function raised
    | Publish(u: Unit)       // shared_vars_updater.Update
    | Count(u: Unit)         // caller_id_finished_count.Increment
    | CompareDone(caller: nat, seen: nat)
    | NotifyDone(caller: nat)

  /** `cls` holds the attribute of the cached command objects, `last` what the updater saw last. `gone`
      is history: the changes that are missing from the attribute because of the task in progress. */
  datatype Worker = Worker(act: Activity, cls: map<nat, int>, last: map<nat, int>, gone: int)

  datatype State = State(
    threads: nat,
    queues: seq<seq<Entry>>,
    pools: seq<seq<Worker>>,
    maxLevel: nat,
    lock: Option<nat>,
    callers: seq<Caller>)

  // ---------------------------------------------------------------------------
  // Small pieces of the steps
  // ---------------------------------------------------------------------------

  const FRESH_WORKER := Worker(Idle, map[], map[], 0)

  function Pool(threads: nat): (p: seq<Worker>)
    ensures |p| == threads && forall j :: 0 <= j < threads ==> p[j] == FRESH_WORKER
  {
    seq(threads, _ => FRESH_WORKER)
  }

  /** `_SetUpPerCallerState`, for an attribute that has value `base` in the copied command. */
  function NewCaller(call: Call, level: nat, parent: Parent, wait: Waiter, base: int): Caller {
    Caller(call, level, parent, wait, NotStarted, 0, 0, None, false, -1, 0, false, [], 0, 0,
           base, base, 0, [], {}, {}, {})
  }

  /** A fresh process whose main thread calls Apply. */
  function Init(call: Call, threads: nat, attr: int): State {
    State(threads, [], [], 0, None,
          [NewCaller(call, 0, Main, FirstPool, if call.shared then 0 else attr)])
  }

  /** `need_pool_or_done_cond.notify_all()`. */
  function Woken(k: Caller): Caller {
    if k.wait.Waiting? then k.(wait := Check) else k
  }

  function WakeAll(callers: seq<Caller>): (w: seq<Caller>)
    ensures |w| == |callers| && forall i :: 0 <= i < |w| ==> w[i] == Woken(callers[i])
  {
    seq(|callers|, i requires 0 <= i < |callers| => Woken(callers[i]))
  }

  /** The locked block of `_NotifyIfDone`. */
  function Complete(callers: seq<Caller>, c: nat): seq<Caller>
    requires c < |callers|
  {
    WakeAll(callers[c := callers[c].(completed := true)])
  }

  predicate QueueHasRoom(s: State, level: nat) {
    level < |s.queues| && |s.queues[level]| < MAX_QUEUE_SIZE
  }

  function Enqueue(s: State, level: nat, e: Entry): State
    requires level < |s.queues|
  {
    s.(queues := s.queues[level := s.queues[level] + [e]])
  }

  function SetCaller(s: State, c: nat, k: Caller): State
    requires c < |s.callers|
  {
    s.(callers := s.callers[c := k])
  }

  predicate IsWorker(s: State, l: nat, j: nat) { l < |s.pools| && j < |s.pools[l]| }

  function SetWorker(s: State, l: nat, j: nat, w: Worker): State
    requires IsWorker(s, l, j)
  {
    s.(pools := s.pools[l := s.pools[l][j := w]])
  }

  predicate ValidUnit(s: State, u: Unit) {
    u.caller < |s.callers| && IsTask(s.callers[u.caller].call.events, u.item)
  }

  function TaskOf(s: State, u: Unit): Task
    requires ValidUnit(s, u)
  {
    s.callers[u.caller].call.events[u.item].task
  }

  function Attr(w: Worker, c: nat): int { if c in w.cls then w.cls[c] else 0 }

  function Last(w: Worker, c: nat): int { if c in w.last then w.last[c] else 0 }

  // ---------------------------------------------------------------------------
  // The thread that called Apply
  // ---------------------------------------------------------------------------

  predicate ParentReady(s: State, c: nat)
    requires c < |s.callers|
  {
    match s.callers[c].parent
    case Main => true
    case ByWorker(l, j) =>
      && IsWorker(s, l, j)
      && s.pools[l][j].act.InApply?
      && s.pools[l][j].act.child == c
  }

  predicate WaiterEnabled(s: State, c: nat) {
    && c < |s.callers|
    && match s.callers[c].wait
       case WantLock => s.lock.None?
       case StartProducer => s.callers[c].level < |s.queues|
       case Check => s.callers[c].completed ==> ParentReady(s, c)
       case Waiting => false
       case Returned => false
       case _ => true
  }

  /** The worker that made nested call `k` goes on with its task. If the call raised, the function
      raises too, and the attribute that Apply had set to 0 keeps that value: what it was is gone, and so
      is what the nested call changed, as its shared variable is not added. */
  function Resume(w: Worker, k: Caller): Worker
    requires w.act.InApply?
  {
    var u := w.act.u;
    if k.failed then
      w.(act := Handle(u), gone := if k.call.shared then w.gone + w.act.saved + k.sharedVar + k.lost else w.gone)
    else
      w.(act := Body(u, w.act.k + 1),
         cls := if k.call.shared then w.cls[u.caller := w.act.saved + k.sharedVar] else w.cls,
         gone := if k.call.shared then w.gone + k.lost else w.gone)
  }

  predicate SettingUp(w: Waiter) {
    w.FirstPool? || w.WantLock? || w.CheckLevel? || w.AddQueue? || w.AddPool? || w.Unlock?
  }

  /** Making sure that the queue and the pool of the caller's level exist. */
  function SetUpNext(s: State, c: nat): State
    requires WaiterEnabled(s, c) && SettingUp(s.callers[c].wait)
  {
    var k := s.callers[c];
    match k.wait
    case FirstPool =>
      var s := SetCaller(s, c, k.(wait := StartProducer));
      if s.queues == [] then s.(queues := [[]], pools := [Pool(s.threads)]) else s
    case WantLock => SetCaller(s, c, k.(wait := CheckLevel)).(lock := Some(c))
    case CheckLevel =>
      if k.level > s.maxLevel
      then SetCaller(s, c, k.(wait := AddQueue)).(maxLevel := s.maxLevel + 1)
      else SetCaller(s, c, k.(wait := Unlock))
    case AddQueue => SetCaller(s, c, k.(wait := AddPool)).(queues := s.queues + [[]])
    case AddPool => SetCaller(s, c, k.(wait := Unlock)).(pools := s.pools + [Pool(s.threads)])
    case Unlock => SetCaller(s, c, k.(wait := StartProducer)).(lock := None)
  }

  /** Apply returns to the main thread, or to the task that called it. */
  function ReturnNext(s: State, c: nat): State
    requires c < |s.callers| && ParentReady(s, c)
  {
    var k := s.callers[c];
    var s' := SetCaller(s, c, k.(wait := Returned));
    match k.parent
    case Main => s'
    case ByWorker(l, j) => SetWorker(s', l, j, Resume(s.pools[l][j], k))
  }

  function WaiterNext(s: State, c: nat): State
    requires WaiterEnabled(s, c)
  {
    var k := s.callers[c];
    if SettingUp(k.wait) then SetUpNext(s, c)
    else if k.wait.StartProducer? then SetCaller(s, c, k.(wait := Check, prod := Fetch))
    else if k.completed then ReturnNext(s, c)
    else SetCaller(s, c, k.(wait := Waiting))
  }

  // ---------------------------------------------------------------------------
  // ProducerThread.run
  // ---------------------------------------------------------------------------

  predicate ProducerEnabled(s: State, c: nat) {
    && c < |s.callers|
    && match s.callers[c].prod
       case NotStarted => false
       case Put(_) => QueueHasRoom(s, s.callers[c].level)
       case PutLast => QueueHasRoom(s, s.callers[c].level)
       case Exited => false
       case _ => true
  }

  function Fetched(k: Caller): Caller {
    if k.next >= |k.call.events| then k.(prod := SetTotal) else
      match k.call.events[k.next]
      case CheckerError => k.(prod := SetTotal, failed := true)
      case IterError(d) => k.(next := k.next + 1, prod := PublishError, prodAttr := k.prodAttr + d)
      case Item(accepted, _) =>
        if !accepted then k.(next := k.next + 1)
        else k.(next := k.next + 1, numTasks := k.numTasks + 1, cur := Some(k.next),
                prod := if k.cur.Some? then Put(k.cur.value) else Fetch)
  }

  function Published(k: Caller): Caller {
    if !k.call.shared then k.(prod := Fetch)
    else k.(prod := Fetch, prodLast := k.prodAttr, sharedVar := k.sharedVar + (k.prodAttr - k.prodLast))
  }

  function ProducerNext(s: State, c: nat): State
    requires ProducerEnabled(s, c)
  {
    var k := s.callers[c];
    match k.prod
    case Fetch => SetCaller(s, c, Fetched(k))
    case Put(i) => SetCaller(Enqueue(s, k.level, Work(Unit(c, i))), c, k.(prod := Fetch))
    case PublishError => SetCaller(s, c, Published(k))
    case SetTotal => SetCaller(s, c, k.(prod := PutLast, total := k.numTasks))
    case PutLast =>
      var e := if k.cur.Some? then Work(Unit(c, k.cur.value)) else ZeroTasks(c);
      SetCaller(Enqueue(s, k.level, e), c, k.(prod := ReadDone, cur := None))
    case ReadDone => SetCaller(s, c, k.(prod := Compare(k.finished)))
    case Compare(n) =>
      SetCaller(s, c, k.(prod := if k.total == n && k.total >= 0 then Notify else Exited))
    case Notify => s.(callers := Complete(SetCaller(s, c, k.(prod := Exited)).callers, c))
  }

  // ---------------------------------------------------------------------------
  // WorkerThread.run and PerformTask
  // ---------------------------------------------------------------------------

  predicate WorkerEnabled(s: State, l: nat, j: nat) {
    && IsWorker(s, l, j)
    && match s.pools[l][j].act
       case Idle =>
         && l < |s.queues|
         && s.queues[l] != []
         && (s.queues[l][0].Work? ==> ValidUnit(s, s.queues[l][0].u))
       case Body(u, k) => ValidUnit(s, u) && k <= |TaskOf(s, u).actions|
       case InApply(_, _, _, _) => false
       case Record(u) => ValidUnit(s, u) && TaskOf(s, u).outcome.Returns?
       case Handle(u) => ValidUnit(s, u)
       case Publish(u) => ValidUnit(s, u)
       case Count(u) => ValidUnit(s, u)
       case CompareDone(c, _) => c < |s.callers|
       case NotifyDone(c) => c < |s.callers|
  }

  /** `task_queue.get()`; the command object is copied from class_map on first use. */
  function Take(s: State, l: nat, j: nat): State
    requires WorkerEnabled(s, l, j) && s.pools[l][j].act.Idle?
  {
    var w, e := s.pools[l][j], s.queues[l][0];
    var s := s.(queues := s.queues[l := s.queues[l][1..]]);
    if e.ZeroTasks? then s
    else
      var c := e.u.caller;
      var k := s.callers[c];
      var w' := w.(act := Body(e.u, 0), cls := if c in w.cls then w.cls else w.cls[c := k.base], gone := 0);
      SetWorker(SetCaller(s, c, k.(taken := k.taken + [e.u.item])), l, j, w')
  }

  /** One action of the function, or its end. A nested Apply that shares the attribute sets it to 0. */
  function RunBody(s: State, l: nat, j: nat): State
    requires WorkerEnabled(s, l, j) && s.pools[l][j].act.Body?
  {
    var w := s.pools[l][j];
    var Body(u, k) := w.act;
    var task := TaskOf(s, u);
    if k == |task.actions| then
      SetWorker(s, l, j, w.(act := if task.outcome.Returns? then Record(u) else Handle(u)))
    else
      match task.actions[k]
      case Bump(d) =>
        SetWorker(s, l, j, w.(act := Body(u, k + 1), cls := w.cls[u.caller := Attr(w, u.caller) + d]))
      case CallApply(call) =>
        var saved := Attr(w, u.caller);
        var w' := w.(act := InApply(u, k, |s.callers|, saved),
                     cls := if call.shared then w.cls[u.caller := 0] else w.cls);
        var child := NewCaller(call, l + 1, ByWorker(l, j), WantLock, if call.shared then 0 else saved);
        SetWorker(s.(callers := s.callers + [child]), l, j, w')
  }

  function WorkerNext(s: State, l: nat, j: nat): State
    requires WorkerEnabled(s, l, j)
  {
    var w := s.pools[l][j];
    match w.act
    case Idle => Take(s, l, j)
    case Body(_, _) => RunBody(s, l, j)
    case Record(u) =>
      var k := s.callers[u.caller];
      var k' := if !k.call.wantResults then k
                else k.(results := k.results + [TaskOf(s, u).outcome.value], recorded := k.recorded + {u.item});
      SetWorker(SetCaller(s, u.caller, k'), l, j, w.(act := Publish(u)))
    case Handle(u) =>
      SetWorker(s, l, j,
                w.(act := Publish(u), cls := w.cls[u.caller := Attr(w, u.caller) + TaskOf(s, u).onError]))
    case Publish(u) =>
      var k := s.callers[u.caller];
      var now := Attr(w, u.caller);
      var k' := k.(credited := k.credited + {u.item},
                   sharedVar := if k.call.shared then k.sharedVar + (now - Last(w, u.caller)) else k.sharedVar,
                   lost := if k.call.shared then k.lost + w.gone else k.lost);
      var w' := w.(act := Count(u), last := if k.call.shared then w.last[u.caller := now] else w.last);
      SetWorker(SetCaller(s, u.caller, k'), l, j, w')
    case Count(u) =>
      var k := s.callers[u.caller];
      SetWorker(SetCaller(s, u.caller, k.(finished := k.finished + 1, done := k.done + {u.item})), l, j,
                w.(act := CompareDone(u.caller, k.finished + 1)))
    case CompareDone(c, n) =>
      var total := s.callers[c].total;
      SetWorker(s, l, j, w.(act := if total == n && total >= 0 then NotifyDone(c) else Idle))
    case NotifyDone(c) =>
      SetWorker(s.(callers := Complete(s.callers, c)), l, j, w.(act := Idle))
  }

  // ---------------------------------------------------------------------------
  // Runs
  // ---------------------------------------------------------------------------

  datatype Step = WaiterStep(c: nat) | ProducerStep(c: nat) | WorkerStep(l: nat, j: nat)

  predicate Enabled(s: State, step: Step) {
    match step
    case WaiterStep(c) => WaiterEnabled(s, c)
    case ProducerStep(c) => ProducerEnabled(s, c)
    case WorkerStep(l, j) => WorkerEnabled(s, l, j)
  }

  function Next(s: State, step: Step): State
    requires Enabled(s, step)
  {
    match step
    case WaiterStep(c) => WaiterNext(s, c)
    case ProducerStep(c) => ProducerNext(s, c)
    case WorkerStep(l, j) => WorkerNext(s, l, j)
  }

  /** `s'` is reached from `s` by the schedule `steps`. */
  predicate Run(s: State, steps: seq<Step>, s': State)
    decreases |steps|
  {
    if steps == [] then s' == s
    else Enabled(s, steps[0]) && Run(Next(s, steps[0]), steps[1..], s')
  }
}
