/** Every schedule of a parallel Apply is finite, so every maximal one returns. */
module ApplyTermination {
  import opened Wrappers
  import opened Sums
  import opened ApplyProgram
  import opened ApplyMachine
  import opened ApplyInvariant
  import opened ApplyWorkers
  import opened ApplyDeadlock

  // ---------------------------------------------------------------------------
  // The work left in a program
  // ---------------------------------------------------------------------------

  /** Steps to run the rest of a body, from action `k`, apart from publishing its end. */
  function ActionsWork(actions: seq<Action>, k: nat): nat
    requires k <= |actions|
    decreases actions, 1, |actions| - k
  {
    if k == |actions| then 0 else ActionWork(actions[k]) + ActionsWork(actions, k + 1)
  }

  function ActionWork(a: Action): nat
    decreases a, 0
  {
    match a
    case Bump(_) => 1
    case CallApply(call) => 2 + CallWork(call)
  }

  function CallWork(call: Call): nat
    decreases call, 3
  {
    17 + EventsWork(call.events, 0)
  }

  function EventsWork(events: seq<Event>, i: nat): nat
    requires i <= |events|
    decreases events, 2, |events| - i
  {
    if i == |events| then 0 else EventWork(events[i]) + EventsWork(events, i + 1)
  }

  function EventWork(e: Event): nat
    decreases e, 2
  {
    match e
    case Item(accepted, task) => if accepted then 2 + TaskWork(task) else 1
    case IterError(_) => 2
    case CheckerError => 1
  }

  /** Steps to take a queued task and perform it. */
  function TaskWork(t: Task): nat
    decreases t, 2
  {
    8 + ActionsWork(t.actions, 0)
  }

  // ---------------------------------------------------------------------------
  // The work left in a state
  // ---------------------------------------------------------------------------

  function Calls(s: State): (calls: seq<Call>)
    ensures |calls| == |s.callers| && forall c :: 0 <= c < |calls| ==> calls[c] == s.callers[c].call
  {
    seq(|s.callers|, c requires 0 <= c < |s.callers| => s.callers[c].call)
  }

  function ItemWork(call: Call, i: nat): nat {
    if IsTask(call.events, i) then TaskWork(call.events[i].task) else 0
  }

  function UnitWork(calls: seq<Call>, u: Unit): nat {
    if u.caller < |calls| then ItemWork(calls[u.caller], u.item) else 0
  }

  function EntryWork(calls: seq<Call>, e: Entry): nat {
    match e
    case Work(u) => UnitWork(calls, u)
    case ZeroTasks(_) => 1
  }

  function RestWork(calls: seq<Call>, u: Unit, k: nat): nat {
    if u.caller < |calls| && IsTask(calls[u.caller].events, u.item) &&
       k <= |calls[u.caller].events[u.item].task.actions|
    then ActionsWork(calls[u.caller].events[u.item].task.actions, k) else 0
  }

  function WorkerWork(calls: seq<Call>, w: Worker): nat {
    match w.act
    case Idle => 0
    case Body(u, k) => 7 + RestWork(calls, u, k)
    case InApply(u, k, _, _) => 8 + RestWork(calls, u, k + 1)
    case Record(_) => 6
    case Handle(_) => 6
    case Publish(_) => 5
    case Count(_) => 4
    case CompareDone(_, _) => 3
    case NotifyDone(_) => 2
  }

  function WaiterWork(w: Waiter): nat {
    match w
    case FirstPool => 9
    case WantLock => 9
    case CheckLevel => 8
    case AddQueue => 7
    case AddPool => 6
    case Unlock => 5
    case StartProducer => 4
    case Check => 1
    case Waiting => 1
    case Returned => 0
  }

  function HeldWork(k: Caller): nat { if k.cur.Some? then 1 + ItemWork(k.call, k.cur.value) else 0 }

  function AheadWork(k: Caller): nat {
    8 + HeldWork(k) + if k.next <= |k.call.events| then EventsWork(k.call.events, k.next) else 0
  }

  function ProducerWork(k: Caller): nat {
    match k.prod
    case NotStarted => AheadWork(k)
    case Fetch => AheadWork(k)
    case Put(i) => 1 + ItemWork(k.call, i) + AheadWork(k)
    case PublishError => 1 + AheadWork(k)
    case SetTotal => 7 + HeldWork(k)
    case PutLast => 6 + HeldWork(k)
    case ReadDone => 3
    case Compare(_) => 2
    case Notify => 1
    case Exited => 0
  }

  function CallerWork(k: Caller): nat { WaiterWork(k.wait) + ProducerWork(k) }

  function QueueWork(calls: seq<Call>, q: seq<Entry>): nat { Sum(q, e => EntryWork(calls, e)) }

  function PoolWork(calls: seq<Call>, pool: seq<Worker>): nat { Sum(pool, w => WorkerWork(calls, w)) }

  function QueuesWork(calls: seq<Call>, queues: seq<seq<Entry>>): nat { Sum(queues, q => QueueWork(calls, q)) }

  function PoolsWork(calls: seq<Call>, pools: seq<seq<Worker>>): nat { Sum(pools, p => PoolWork(calls, p)) }

  function CallersWork(callers: seq<Caller>): nat { Sum(callers, k => CallerWork(k)) }

  function WorkLeft(s: State): nat {
    CallersWork(s.callers) + QueuesWork(Calls(s), s.queues) + PoolsWork(Calls(s), s.pools)
  }

  /** Threads about to look at call_completed_map. */
  function Checking(callers: seq<Caller>): nat { Sum(callers, (k: Caller) => B2N(k.wait.Check?)) }

  // ---------------------------------------------------------------------------
  // How the pieces of a step change the sums
  // ---------------------------------------------------------------------------

  lemma SetCallerWork(callers: seq<Caller>, c: nat, k: Caller)
    requires c < |callers|
    ensures CallersWork(callers[c := k]) + CallerWork(callers[c]) == CallersWork(callers) + CallerWork(k)
  {
    SumUpdate(callers, c, k, k => CallerWork(k));
  }

  lemma SetChecking(callers: seq<Caller>, c: nat, k: Caller)
    requires c < |callers|
    ensures Checking(callers[c := k]) + B2N(callers[c].wait.Check?) == Checking(callers) + B2N(k.wait.Check?)
  {
    SumUpdate(callers, c, k, (k: Caller) => B2N(k.wait.Check?));
  }

  lemma SetQueueWork(calls: seq<Call>, queues: seq<seq<Entry>>, l: nat, q: seq<Entry>)
    requires l < |queues|
    ensures QueuesWork(calls, queues[l := q]) + QueueWork(calls, queues[l]) == QueuesWork(calls, queues) + QueueWork(calls, q)
  {
    SumUpdate(queues, l, q, q => QueueWork(calls, q));
  }

  lemma EnqueueWork(calls: seq<Call>, q: seq<Entry>, e: Entry)
    ensures QueueWork(calls, q + [e]) == QueueWork(calls, q) + EntryWork(calls, e)
  {
    SumAppend(q, [e], e => EntryWork(calls, e));
  }

  lemma SetWorkerWork(calls: seq<Call>, pools: seq<seq<Worker>>, l: nat, j: nat, w: Worker)
    requires l < |pools| && j < |pools[l]|
    ensures PoolsWork(calls, pools[l := pools[l][j := w]]) + WorkerWork(calls, pools[l][j]) ==
            PoolsWork(calls, pools) + WorkerWork(calls, w)
  {
    SumUpdate(pools, l, pools[l][j := w], p => PoolWork(calls, p));
    SumUpdate(pools[l], j, w, w => WorkerWork(calls, w));
  }

  lemma {:induction false} FreshPoolWork(calls: seq<Call>, n: nat)
    ensures PoolWork(calls, Pool(n)) == 0
  {
    if n > 0 {
      assert Pool(n)[1..] == Pool(n - 1);
      FreshPoolWork(calls, n - 1);
    }
  }

  lemma GrowWork(calls: seq<Call>, queues: seq<seq<Entry>>, pools: seq<seq<Worker>>, n: nat)
    ensures QueuesWork(calls, queues + [[]]) == QueuesWork(calls, queues)
    ensures PoolsWork(calls, pools + [Pool(n)]) == PoolsWork(calls, pools)
  {
    SumAppend(queues, [[]], q => QueueWork(calls, q));
    SumAppend(pools, [Pool(n)], p => PoolWork(calls, p));
    FreshPoolWork(calls, n);
  }

  lemma CompleteWork(callers: seq<Caller>, c: nat)
    requires c < |callers|
    ensures CallersWork(Complete(callers, c)) == CallersWork(callers)
  {
    SumMap(callers, Complete(callers, c), k => CallerWork(k), k => CallerWork(k));
  }

  /** A new caller does not change the work of what is queued or running. */
  lemma NewCallWork(s: State, call: Call)
    requires EntriesOk(s) && WorkersOk(s)
    ensures QueuesWork(Calls(s) + [call], s.queues) == QueuesWork(Calls(s), s.queues)
    ensures PoolsWork(Calls(s) + [call], s.pools) == PoolsWork(Calls(s), s.pools)
  {
    var calls, more := Calls(s), Calls(s) + [call];
    forall l | 0 <= l < |s.queues| ensures QueueWork(more, s.queues[l]) == QueueWork(calls, s.queues[l]) {
      forall i | 0 <= i < |s.queues[l]| ensures EntryWork(more, s.queues[l][i]) == EntryWork(calls, s.queues[l][i]) {
        assert EntryOk(s, l, s.queues[l][i]);
      }
      SumMap(s.queues[l], s.queues[l], e => EntryWork(more, e), e => EntryWork(calls, e));
    }
    SumMap(s.queues, s.queues, q => QueueWork(more, q), q => QueueWork(calls, q));
    forall l | 0 <= l < |s.pools| ensures PoolWork(more, s.pools[l]) == PoolWork(calls, s.pools[l]) {
      forall j | 0 <= j < |s.pools[l]| ensures WorkerWork(more, s.pools[l][j]) == WorkerWork(calls, s.pools[l][j]) {
        assert WorkerOk(s, l, j);
      }
      SumMap(s.pools[l], s.pools[l], w => WorkerWork(more, w), w => WorkerWork(calls, w));
    }
    SumMap(s.pools, s.pools, p => PoolWork(more, p), p => PoolWork(calls, p));
  }

  // ---------------------------------------------------------------------------
  // Every step does some of the work
  // ---------------------------------------------------------------------------

  /** Less work, or the same work with one thread fewer about to look. */
  predicate Lower(s': State, s: State) {
    WorkLeft(s') < WorkLeft(s) || (WorkLeft(s') == WorkLeft(s) && Checking(s'.callers) < Checking(s.callers))
  }

  lemma FetchWork(k: Caller)
    requires CallerOk(k) && k.prod.Fetch?
    ensures ProducerWork(Fetched(k)) < ProducerWork(k)
  {
    var events := k.call.events;
    if k.next < |events| {
      assert EventsWork(events, k.next) == EventWork(events[k.next]) + EventsWork(events, k.next + 1);
      assert events[k.next].Item? && events[k.next].accepted ==>
          ItemWork(k.call, k.next) == TaskWork(events[k.next].task);
    }
  }

  lemma PutWork(s: State, c: nat, k': Caller, e: Entry)
    requires c < |s.callers| && k'.call == s.callers[c].call && k'.level < |s.queues|
    requires EntryWork(Calls(s), e) + CallerWork(k') < CallerWork(s.callers[c])
    ensures WorkLeft(SetCaller(Enqueue(s, k'.level, e), c, k')) < WorkLeft(s)
  {
    assert Calls(SetCaller(Enqueue(s, k'.level, e), c, k')) == Calls(s);
    SetCallerWork(s.callers, c, k');
    EnqueueWork(Calls(s), s.queues[k'.level], e);
    SetQueueWork(Calls(s), s.queues, k'.level, s.queues[k'.level] + [e]);
  }

  lemma CallerLower(s: State, c: nat, k': Caller)
    requires c < |s.callers| && k'.call == s.callers[c].call
    requires CallerWork(k') < CallerWork(s.callers[c])
    ensures WorkLeft(SetCaller(s, c, k')) < WorkLeft(s)
  {
    assert Calls(SetCaller(s, c, k')) == Calls(s);
    SetCallerWork(s.callers, c, k');
  }

  lemma NotifyLower(s: State, c: nat)
    requires ProducerEnabled(s, c) && s.callers[c].prod.Notify?
    ensures WorkLeft(ProducerNext(s, c)) < WorkLeft(s)
  {
    var k := s.callers[c];
    assert Calls(ProducerNext(s, c)) == Calls(s);
    SetCallerWork(s.callers, c, k.(prod := Exited));
    CompleteWork(s.callers[c := k.(prod := Exited)], c);
  }

  lemma ProducerLower(s: State, c: nat)
    requires ProducerEnabled(s, c) && CallerOk(s.callers[c])
    ensures WorkLeft(ProducerNext(s, c)) < WorkLeft(s)
  {
    var k := s.callers[c];
    if k.prod.Fetch? { FetchWork(k); CallerLower(s, c, Fetched(k)); }
    else if k.prod.Put? { PutWork(s, c, k.(prod := Fetch), Work(Unit(c, k.prod.item))); }
    else if k.prod.PutLast? {
      PutWork(s, c, k.(prod := ReadDone, cur := None),
              if k.cur.Some? then Work(Unit(c, k.cur.value)) else ZeroTasks(c));
    }
    else if k.prod.Notify? { NotifyLower(s, c); }
    else { CallerLower(s, c, ProducerNext(s, c).callers[c]); }
  }

  lemma FirstLower(s: State, c: nat)
    requires WaiterEnabled(s, c) && s.callers[c].wait.FirstPool?
    ensures WorkLeft(WaiterNext(s, c)) < WorkLeft(s)
  {
    var k, s' := s.callers[c], WaiterNext(s, c);
    assert Calls(s') == Calls(s);
    SetCallerWork(s.callers, c, k.(wait := StartProducer));
    if s.queues == [] {
      GrowWork(Calls(s), [], [], s.threads);
      assert [] + [[]] == s'.queues && [] + [Pool(s.threads)] == s'.pools;
    }
  }

  /** The waiter moves on while the new level gets its queue or its pool. */
  lemma SetUpMove(s: State, s': State, c: nat, k': Caller)
    requires c < |s.callers| && k'.call == s.callers[c].call && CallerWork(k') < CallerWork(s.callers[c])
    requires s'.callers == s.callers[c := k']
    requires s'.queues == s.queues || s'.queues == s.queues + [[]]
    requires s'.pools == s.pools || s'.pools == s.pools + [Pool(s.threads)]
    ensures WorkLeft(s') < WorkLeft(s)
  {
    assert Calls(s') == Calls(s);
    SetCallerWork(s.callers, c, k');
    GrowWork(Calls(s), s.queues, s.pools, s.threads);
  }

  lemma SetUpShape(s: State, c: nat)
    requires WaiterEnabled(s, c) && SettingUp(s.callers[c].wait) && !s.callers[c].wait.FirstPool?
    ensures
      var k, s' := s.callers[c], SetUpNext(s, c);
      var w := s'.callers[c].wait;
      && s'.callers == s.callers[c := k.(wait := w)] && WaiterWork(w) < WaiterWork(k.wait)
      && (s'.queues == s.queues || s'.queues == s.queues + [[]])
      && (s'.pools == s.pools || s'.pools == s.pools + [Pool(s.threads)])
  {
  }

  lemma SetUpLower(s: State, c: nat)
    requires WaiterEnabled(s, c) && SettingUp(s.callers[c].wait) && !s.callers[c].wait.FirstPool?
    ensures WorkLeft(WaiterNext(s, c)) < WorkLeft(s)
  {
    SetUpShape(s, c);
    SetUpMove(s, SetUpNext(s, c), c, SetUpNext(s, c).callers[c]);
  }

  lemma ResumeWork(calls: seq<Call>, w: Worker, k: Caller)
    requires w.act.InApply?
    ensures WorkerWork(calls, Resume(w, k)) < WorkerWork(calls, w)
  {
  }

  lemma ReturnMove(s: State, c: nat, l: nat, j: nat)
    requires c < |s.callers| && s.callers[c].wait.Check? && IsWorker(s, l, j) && s.pools[l][j].act.InApply?
    ensures WorkLeft(SetWorker(SetCaller(s, c, s.callers[c].(wait := Returned)), l, j,
                               Resume(s.pools[l][j], s.callers[c]))) < WorkLeft(s)
  {
    var k, k' := s.callers[c], s.callers[c].(wait := Returned);
    var w := Resume(s.pools[l][j], k);
    var s' := SetWorker(SetCaller(s, c, k'), l, j, w);
    assert Calls(s') == Calls(s);
    SetCallerWork(s.callers, c, k');
    SetWorkerWork(Calls(s), s.pools, l, j, w);
    ResumeWork(Calls(s), s.pools[l][j], k);
    assert CallerWork(k') <= CallerWork(k);
  }

  lemma ReturnLower(s: State, c: nat)
    requires WaiterEnabled(s, c) && s.callers[c].wait.Check? && s.callers[c].completed
    ensures WorkLeft(WaiterNext(s, c)) < WorkLeft(s)
  {
    var k := s.callers[c];
    match k.parent
    case Main => CallerLower(s, c, k.(wait := Returned));
    case ByWorker(l, j) => ReturnMove(s, c, l, j);
  }

  lemma WaiterLower(s: State, c: nat)
    requires WaiterEnabled(s, c) && CallerOk(s.callers[c])
    ensures Lower(WaiterNext(s, c), s)
  {
    var k := s.callers[c];
    if k.wait.FirstPool? { FirstLower(s, c); }
    else if SettingUp(k.wait) { SetUpLower(s, c); }
    else if k.wait.StartProducer? { CallerLower(s, c, k.(wait := Check, prod := Fetch)); }
    else if k.completed { ReturnLower(s, c); }
    else {
      var s' := WaiterNext(s, c);
      assert Calls(s') == Calls(s);
      SetCallerWork(s.callers, c, k.(wait := Waiting));
      SetChecking(s.callers, c, k.(wait := Waiting));
    }
  }

  lemma TakeLower(s: State, l: nat, j: nat)
    requires EntriesOk(s) && WorkerEnabled(s, l, j) && s.pools[l][j].act.Idle?
    ensures WorkLeft(WorkerNext(s, l, j)) < WorkLeft(s)
  {
    var s' := WorkerNext(s, l, j);
    var q := s.queues[l];
    assert Calls(s') == Calls(s);
    assert EntryOk(s, l, q[0]);
    SetQueueWork(Calls(s), s.queues, l, q[1..]);
    if q[0].Work? {
      SetWorkerWork(Calls(s), s.pools, l, j, s'.pools[l][j]);
      SetCallerWork(s.callers, q[0].u.caller, s'.callers[q[0].u.caller]);
    }
  }

  lemma NestedLower(s: State, l: nat, j: nat, w: Worker, child: Caller)
    requires EntriesOk(s) && WorkersOk(s) && IsWorker(s, l, j)
    requires WorkerWork(Calls(s) + [child.call], w) + CallerWork(child) <
             WorkerWork(Calls(s) + [child.call], s.pools[l][j])
    ensures WorkLeft(Nested(s, l, j, w, child)) < WorkLeft(s)
  {
    var calls := Calls(s) + [child.call];
    assert Calls(Nested(s, l, j, w, child)) == calls;
    NewCallWork(s, child.call);
    SumAppend(s.callers, [child], k => CallerWork(k));
    assert CallersWork([child]) == CallerWork(child);
    SetWorkerWork(calls, s.pools, l, j, w);
  }

  lemma CallLower(s: State, l: nat, j: nat)
    requires EntriesOk(s) && WorkersOk(s) && WorkerEnabled(s, l, j) && s.pools[l][j].act.Body?
    requires
      var Body(u, k) := s.pools[l][j].act;
      k < |TaskOf(s, u).actions| && TaskOf(s, u).actions[k].CallApply?
    ensures WorkLeft(WorkerNext(s, l, j)) < WorkLeft(s)
  {
    var s' := WorkerNext(s, l, j);
    var Body(u, k) := s.pools[l][j].act;
    var child := s'.callers[|s.callers|];
    var actions := TaskOf(s, u).actions;
    assert ActionsWork(actions, k) == ActionWork(actions[k]) + ActionsWork(actions, k + 1);
    assert CallerWork(child) == CallWork(child.call);
    NestedLower(s, l, j, s'.pools[l][j], child);
  }

  lemma BodyLower(s: State, l: nat, j: nat)
    requires WorkerEnabled(s, l, j) && s.pools[l][j].act.Body?
    requires
      var Body(u, k) := s.pools[l][j].act;
      k == |TaskOf(s, u).actions| || TaskOf(s, u).actions[k].Bump?
    ensures WorkLeft(WorkerNext(s, l, j)) < WorkLeft(s)
  {
    var Body(u, k) := s.pools[l][j].act;
    var actions := TaskOf(s, u).actions;
    if k < |actions| { assert ActionsWork(actions, k) == ActionWork(actions[k]) + ActionsWork(actions, k + 1); }
    assert s.callers[u.caller := s.callers[u.caller]] == s.callers;
    WorkerStepLower(s, l, j, WorkerNext(s, l, j).pools[l][j], u.caller, s.callers[u.caller]);
  }

  /** A step that changes one worker and what one caller published. */
  lemma WorkerStepLower(s: State, l: nat, j: nat, w: Worker, c: nat, k': Caller)
    requires IsWorker(s, l, j) && c < |s.callers|
    requires k'.call == s.callers[c].call && CallerWork(k') == CallerWork(s.callers[c])
    requires WorkerWork(Calls(s), w) < WorkerWork(Calls(s), s.pools[l][j])
    ensures WorkLeft(SetWorker(SetCaller(s, c, k'), l, j, w)) < WorkLeft(s)
  {
    assert Calls(SetWorker(SetCaller(s, c, k'), l, j, w)) == Calls(s);
    SetWorkerWork(Calls(s), s.pools, l, j, w);
    SetCallerWork(s.callers, c, k');
  }

  lemma NotifyDoneLower(s: State, l: nat, j: nat)
    requires WorkerEnabled(s, l, j) && s.pools[l][j].act.NotifyDone?
    ensures WorkLeft(WorkerNext(s, l, j)) < WorkLeft(s)
  {
    assert Calls(WorkerNext(s, l, j)) == Calls(s);
    SetWorkerWork(Calls(s), s.pools, l, j, s.pools[l][j].(act := Idle));
    CompleteWork(s.callers, s.pools[l][j].act.caller);
  }

  lemma PublishLower(s: State, l: nat, j: nat)
    requires WorkerEnabled(s, l, j)
    requires var a := s.pools[l][j].act; a.Record? || a.Handle? || a.Publish? || a.Count?
    ensures WorkLeft(WorkerNext(s, l, j)) < WorkLeft(s)
  {
    var s' := WorkerNext(s, l, j);
    var u := Holds(s.pools[l][j]).value;
    assert s.callers[u.caller := s.callers[u.caller]] == s.callers;
    WorkerStepLower(s, l, j, s'.pools[l][j], u.caller, s'.callers[u.caller]);
  }

  lemma CompareLower(s: State, l: nat, j: nat)
    requires WorkerEnabled(s, l, j) && s.pools[l][j].act.CompareDone?
    ensures WorkLeft(WorkerNext(s, l, j)) < WorkLeft(s)
  {
    var c := s.pools[l][j].act.caller;
    assert s.callers[c := s.callers[c]] == s.callers;
    WorkerStepLower(s, l, j, WorkerNext(s, l, j).pools[l][j], c, s.callers[c]);
  }

  lemma WorkerLower(s: State, l: nat, j: nat)
    requires EntriesOk(s) && WorkersOk(s) && WorkerEnabled(s, l, j)
    ensures WorkLeft(WorkerNext(s, l, j)) < WorkLeft(s)
  {
    var a := s.pools[l][j].act;
    if a.Idle? { TakeLower(s, l, j); }
    else if a.Body? {
      if a.k < |TaskOf(s, a.u).actions| && TaskOf(s, a.u).actions[a.k].CallApply? { CallLower(s, l, j); }
      else { BodyLower(s, l, j); }
    }
    else if a.CompareDone? { CompareLower(s, l, j); }
    else if a.NotifyDone? { NotifyDoneLower(s, l, j); }
    else { PublishLower(s, l, j); }
  }

  lemma StepLower(s: State, step: Step)
    requires Inv(s) && Enabled(s, step)
    ensures Lower(Next(s, step), s)
  {
    match step
    case WaiterStep(c) => assert CallerOk(s.callers[c]); WaiterLower(s, c);
    case ProducerStep(c) => assert CallerOk(s.callers[c]); ProducerLower(s, c);
    case WorkerStep(l, j) => WorkerLower(s, l, j);
  }

  // ---------------------------------------------------------------------------
  // Whole runs
  // ---------------------------------------------------------------------------

  /** A scheduler that names an enabled step as long as there is one. */
  predicate Follows(s: State, schedule: nat -> Step, from: nat, n: nat)
    decreases n
  {
    n == 0 || (Enabled(s, schedule(from)) && Follows(Next(s, schedule(from)), schedule, from + 1, n - 1))
  }

  lemma StepDown(call: Call, threads: nat, attr: int, s: State, step: Step)
    requires Reachable(call, threads, attr, s) && Enabled(s, step)
    ensures Reachable(call, threads, attr, Next(s, step)) && Lower(Next(s, step), s)
  {
    ReachableInv(call, threads, attr, s);
    ReachableStep(call, threads, attr, s, step);
    StepLower(s, step);
  }

  /** The schedule names a step that cannot be taken after some number of steps. */
  ghost predicate Stops(s: State, schedule: nat -> Step, from: nat) {
    exists n: nat :: !Follows(s, schedule, from, n)
  }

  lemma StopsNow(s: State, schedule: nat -> Step, from: nat)
    requires !Enabled(s, schedule(from))
    ensures Stops(s, schedule, from)
  {
    assert !Follows(s, schedule, from, 1);
  }

  lemma StopsLater(s: State, schedule: nat -> Step, from: nat)
    requires Enabled(s, schedule(from)) && Stops(Next(s, schedule(from)), schedule, from + 1)
    ensures Stops(s, schedule, from)
  {
    var n: nat :| !Follows(Next(s, schedule(from)), schedule, from + 1, n);
    assert !Follows(s, schedule, from, n + 1);
  }

  /** The state after the next step of a schedule: lower, and if the schedule stops there, it stops here. */
  lemma Onward(call: Call, threads: nat, attr: int, s: State, schedule: nat -> Step, from: nat) returns (t: State)
    requires Reachable(call, threads, attr, s) && Enabled(s, schedule(from))
    ensures Reachable(call, threads, attr, t) && Lower(t, s)
    ensures Stops(t, schedule, from + 1) ==> Stops(s, schedule, from)
  {
    t := Next(s, schedule(from));
    StepDown(call, threads, attr, s, schedule(from));
    if Stops(t, schedule, from + 1) { StopsLater(s, schedule, from); }
  }

  lemma {:induction false} StopsFrom(call: Call, threads: nat, attr: int, s: State, schedule: nat -> Step, from: nat)
    requires Reachable(call, threads, attr, s)
    ensures Stops(s, schedule, from)
    decreases WorkLeft(s), Checking(s.callers)
  {
    if !Enabled(s, schedule(from)) { StopsNow(s, schedule, from); }
    else {
      var t := Onward(call, threads, attr, s, schedule, from);
      StopsFrom(call, threads, attr, t, schedule, from + 1);
    }
  }

  /** No schedule, fair or not, keeps a parallel Apply running for ever. */
  lemma EveryScheduleStops(call: Call, threads: nat, attr: int, s: State, schedule: nat -> Step)
    requires Reachable(call, threads, attr, s)
    ensures exists n: nat :: !Follows(s, schedule, 0, n)
  {
    StopsFrom(call, threads, attr, s, schedule, 0);
  }

  /** When no thread can step, every Apply call, at every level, has returned. */
  lemma StuckMeansReturned(call: Call, threads: nat, attr: int, s: State)
    requires Reachable(call, threads, attr, s)
    requires forall step :: !Enabled(s, step)
    ensures forall c :: 0 <= c < |s.callers| ==> s.callers[c].wait.Returned?
  {
    forall c | 0 <= c < |s.callers| ensures s.callers[c].wait.Returned? {
      if Unfinished(s, c) { DeadlockFree(call, threads, attr, s); }
    }
  }

  /** From every reachable state some run leads to one in which every call has returned. */
  lemma {:induction false} SomeRunReturns(call: Call, threads: nat, attr: int, s: State) returns (t: State)
    requires Reachable(call, threads, attr, s)
    ensures Reachable(call, threads, attr, t) && |t.callers| > 0
    ensures forall c :: 0 <= c < |t.callers| ==> t.callers[c].wait.Returned?
    decreases WorkLeft(s), Checking(s.callers)
  {
    if step :| Enabled(s, step) {
      t := Descend(call, threads, attr, s, step);
      t := SomeRunReturns(call, threads, attr, t);
    } else {
      StuckMeansReturned(call, threads, attr, s);
      ReachableInv(call, threads, attr, s);
      t := s;
    }
  }

  lemma Descend(call: Call, threads: nat, attr: int, s: State, step: Step) returns (t: State)
    requires Reachable(call, threads, attr, s) && Enabled(s, step)
    ensures Reachable(call, threads, attr, t) && Lower(t, s)
  {
    t := Next(s, step);
    StepDown(call, threads, attr, s, step);
  }
}
