/** `_ApplyThreads`: handing tasks of the global queue to the worker threads of one process, under a
    bounded semaphore with one permit per thread. */
module DispatcherPermits {
  import opened Wrappers

  /** A task stands for itself. */
  type Task = nat

  datatype Dispatcher =
    | Acquire          // polls the semaphore
    | Get              // holds a permit, blocked on the global queue
    | Hand(task: Task) // got a task: worker_pool.AddTask
    | GiveBack         // got the no-work marker: release

  datatype Thread =
    | Blocked          // on the pool's queue
    | Performing       // in PerformTask, before the release in its `finally`
    | Counting         // after the release

  /** `raised` records the ValueError of a BoundedSemaphore that is released too often; `taken` is history:
      the tasks the threads took from the pool's queue. */
  datatype State = State(
    size: nat,
    free: nat,
    dispatcher: Dispatcher,
    queue: seq<Task>,
    threads: seq<Thread>,
    raised: bool,
    taken: seq<Task>)

  datatype Step =
    | Acquired
    | Got(item: Option<Task>)  // what the global queue delivers: a task, or the no-work marker
    | Handed
    | GaveBack
    | Took(i: nat)
    | Released(i: nat)
    | Finished(i: nat)

  function Init(size: nat): State {
    State(size, size, Acquire, [], seq(size, _ => Blocked), false, [])
  }

  /** `BoundedSemaphore.release`. */
  function Release(s: State): State {
    if s.free < s.size then s.(free := s.free + 1) else s.(raised := true)
  }

  predicate IsAt(s: State, i: nat, t: Thread) { i < |s.threads| && s.threads[i] == t }

  predicate Enabled(s: State, step: Step) {
    match step
    case Acquired => s.dispatcher.Acquire? && s.free > 0
    case Got(_) => s.dispatcher.Get?
    case Handed => s.dispatcher.Hand?
    case GaveBack => s.dispatcher.GiveBack?
    case Took(i) => IsAt(s, i, Blocked) && s.queue != []
    case Released(i) => IsAt(s, i, Performing)
    case Finished(i) => IsAt(s, i, Counting)
  }

  function Next(s: State, step: Step): State
    requires Enabled(s, step)
  {
    match step
    case Acquired => s.(free := s.free - 1, dispatcher := Get)
    case Got(item) => s.(dispatcher := if item.Some? then Hand(item.value) else GiveBack)
    case Handed => s.(queue := s.queue + [s.dispatcher.task], dispatcher := Acquire)
    case GaveBack => Release(s).(dispatcher := Acquire)
    case Took(i) => s.(queue := s.queue[1..], taken := s.taken + [s.queue[0]], threads := s.threads[i := Performing])
    case Released(i) => Release(s).(threads := s.threads[i := Counting])
    case Finished(i) => s.(threads := s.threads[i := Blocked])
  }

  function Run(s: State, steps: seq<Step>): Option<State>
    decreases |steps|
  {
    if steps == [] then Some(s)
    else if !Enabled(s, steps[0]) then None
    else Run(Next(s, steps[0]), steps[1..])
  }

  /** Threads with a task whose permit they have not released. */
  function Performers(s: State): nat { multiset(s.threads)[Performing] }

  function Busy(t: Thread): nat { if t.Performing? then 1 else 0 }

  function Permit(d: Dispatcher): nat { if d.Acquire? then 0 else 1 }

  /** Every permit is free, with the dispatcher, with a task handed over, or with a busy thread. */
  predicate Conserved(s: State) {
    && s.free + Permit(s.dispatcher) + |s.queue| + Performers(s) == s.size
    && |s.threads| == s.size
    && !s.raised
  }

  lemma StepConserves(s: State, step: Step)
    requires Conserved(s) && Enabled(s, step)
    ensures Conserved(Next(s, step))
  {
    if step.Took? { ThreadMoves(s.threads, step.i, Performing); }
    else if step.Released? { ThreadMoves(s.threads, step.i, Counting); }
    else if step.Finished? { ThreadMoves(s.threads, step.i, Blocked); }
  }

  lemma ThreadMoves(threads: seq<Thread>, i: nat, t: Thread)
    requires i < |threads|
    ensures multiset(threads[i := t])[Performing] == multiset(threads)[Performing] - Busy(threads[i]) + Busy(t)
  {
    assert threads[i] in threads;
    assert multiset(threads[i := t]) == multiset(threads) - multiset{threads[i]} + multiset{t};
  }

  lemma {:induction false} InitConserves(size: nat)
    ensures Conserved(Init(size))
  {
    assert Performing !in Init(size).threads;
  }

  lemma {:induction false} RunConserves(s: State, steps: seq<Step>)
    requires Conserved(s)
    ensures Run(s, steps).Some? ==> Conserved(Run(s, steps).value) && Run(s, steps).value.size == s.size
    decreases |steps|
  {
    if steps != [] && Enabled(s, steps[0]) {
      StepConserves(s, steps[0]);
      RunConserves(Next(s, steps[0]), steps[1..]);
    }
  }

  /** The tasks that the global queue delivers in these steps. */
  function Work(steps: seq<Step>): seq<Task> {
    if steps == [] then []
    else (if steps[0].Got? && steps[0].item.Some? then [steps[0].item.value] else []) + Work(steps[1..])
  }

  /** The tasks of this process: those taken, those in the pool's queue, and the one in the dispatcher's hand. */
  function Held(s: State): seq<Task> { s.taken + s.queue + if s.dispatcher.Hand? then [s.dispatcher.task] else [] }

  lemma StepHolds(s: State, step: Step)
    requires Enabled(s, step) && (s.dispatcher.Get? || !step.Got?)
    ensures Held(Next(s, step)) == Held(s) + if step.Got? && step.item.Some? then [step.item.value] else []
  {
    if step.Took? { assert s.taken + s.queue == s.taken + [s.queue[0]] + s.queue[1..]; }
  }

  lemma {:induction false} RunHolds(s: State, steps: seq<Step>)
    ensures Run(s, steps).Some? ==> Held(Run(s, steps).value) == Held(s) + Work(steps)
    decreases |steps|
  {
    if steps != [] && Enabled(s, steps[0]) {
      StepHolds(s, steps[0]);
      RunHolds(Next(s, steps[0]), steps[1..]);
    }
  }

  /** The threads take exactly the tasks the global queue delivers, each once and in that order, and never a
      no-work marker: what was taken, what waits in the pool's queue and what the dispatcher is about to hand
      over make up all that was delivered. A waiting task finds a thread that is not performing one. */
  lemma WorkIsHandedOver(size: nat, steps: seq<Step>)
    ensures
      var r := Run(Init(size), steps);
      r.Some? ==>
        var s := r.value;
        && Work(steps) == s.taken + s.queue + (if s.dispatcher.Hand? then [s.dispatcher.task] else [])
        && (s.dispatcher.Acquire? && s.free == size ==> s.taken == Work(steps))
        && (s.queue != [] ==> exists i :: 0 <= i < |s.threads| && s.threads[i] != Performing)
  {
    var r := Run(Init(size), steps);
    RunHolds(Init(size), steps);
    InitConserves(size);
    RunConserves(Init(size), steps);
    assert Held(Init(size)) == [];
    if r.Some? && forall i :: 0 <= i < |r.value.threads| ==> r.value.threads[i] == Performing {
      AllPerforming(r.value.threads);
    }
  }

  lemma {:induction false} AllPerforming(threads: seq<Thread>)
    requires forall i :: 0 <= i < |threads| ==> threads[i] == Performing
    ensures multiset(threads)[Performing] == |threads|
  {
    if threads != [] {
      var front := threads[..|threads| - 1];
      assert threads == front + [Performing];
      AllPerforming(front);
    }
  }

  /** In every reachable state the permits add up, the semaphore was never released too often, also not
      for a no-work marker, and at most one task per thread is waiting or being performed. */
  lemma PermitsConserved(size: nat, steps: seq<Step>)
    ensures
      var r := Run(Init(size), steps);
      r.Some? ==>
        var s := r.value;
        && s.free + Permit(s.dispatcher) + |s.queue| + Performers(s) == size
        && !s.raised && s.free <= size
        && |s.queue| + Performers(s) <= |s.threads| == size
  {
    InitConserves(size);
    RunConserves(Init(size), steps);
  }
}
