/** The parallel Apply returns the results of the sequential one, in some order. */
module ApplyResults {
  import opened Wrappers
  import opened ApplyProgram
  import opened ApplyMachine
  import opened ApplyInvariant
  import opened ApplyPreserve
  import opened ApplyWorkers
  import opened ApplyDeadlock

  // ---------------------------------------------------------------------------
  // What the published results say about the tasks
  // ---------------------------------------------------------------------------

  ghost predicate CallerResults(k: Caller) {
    && k.next <= |k.call.events|
    && k.recorded <= Accepted(k.call.events, k.next)
    && (forall i :: i in k.recorded ==> i in k.taken && !TaskFails(k.call.events[i].task))
    && (if k.call.wantResults
        then
          && multiset(k.results) == ValueBag(k.call.events, k.next, k.recorded)
          && forall i :: i in k.credited && IsTask(k.call.events, i) && !TaskFails(k.call.events[i].task) ==> i in k.recorded
        else k.results == [])
  }

  ghost predicate WorkerResults(s: State, l: nat, j: nat)
    requires IsWorker(s, l, j)
  {
    var a := s.pools[l][j].act;
    Holds(s.pools[l][j]).Some? ==>
      var u := Holds(s.pools[l][j]).value;
      && ValidUnit(s, u)
      && (a.Publish? ==>
            (u.item in s.callers[u.caller].recorded <==> s.callers[u.caller].call.wantResults && !TaskFails(TaskOf(s, u))))
      && (!a.Publish? && !a.Count? ==> u.item !in s.callers[u.caller].recorded)
  }

  ghost predicate AllCallerResults(s: State) {
    forall c :: 0 <= c < |s.callers| ==> CallerResults(s.callers[c])
  }

  ghost predicate AllWorkerResults(s: State) {
    forall l, j :: 0 <= l < |s.pools| && 0 <= j < |s.pools[l]| ==> WorkerResults(s, l, j)
  }

  ghost predicate ResultsOk(s: State) { AllCallerResults(s) && AllWorkerResults(s) }

  predicate SameResults(k: Caller, k': Caller) {
    && k'.call == k.call && k'.next == k.next && k'.recorded == k.recorded && k'.results == k.results
    && k'.taken == k.taken && k'.credited == k.credited
  }

  lemma FetchItem(k: Caller)
    requires CallerResults(k) && k.next < |k.call.events|
    ensures k.call.wantResults ==> ValueBag(k.call.events, k.next + 1, k.recorded) == ValueBag(k.call.events, k.next, k.recorded)
    ensures k.recorded <= Accepted(k.call.events, k.next + 1)
  {
    assert k.next !in k.recorded;
    assert EventValues(k.call.events[k.next], false) == [];
  }

  lemma FetchResults(k: Caller)
    requires CallerResults(k) && k.prod.Fetch?
    ensures CallerResults(Fetched(k))
  {
    if k.next < |k.call.events| && !k.call.events[k.next].CheckerError? {
      FetchItem(k);
      MovedResults(k, Fetched(k));
    }
  }

  lemma MovedResults(k: Caller, k': Caller)
    requires CallerResults(k) && k.next < |k.call.events| && k'.next == k.next + 1
    requires SameResults(k.(next := k.next + 1), k')
    requires k.call.wantResults ==> ValueBag(k.call.events, k.next + 1, k.recorded) == ValueBag(k.call.events, k.next, k.recorded)
    requires k.recorded <= Accepted(k.call.events, k.next + 1)
    ensures CallerResults(k')
  {
  }

  /** A worker that did not step, and whose argument's caller recorded nothing else of it. */
  lemma KeepWorkerResults(s: State, s': State, l: nat, j: nat)
    requires IsWorker(s, l, j) && IsWorker(s', l, j) && s'.pools[l][j] == s.pools[l][j]
    requires WorkerResults(s, l, j)
    requires |s.callers| <= |s'.callers|
    requires Holds(s.pools[l][j]).Some? ==>
      var u := Holds(s.pools[l][j]).value;
      u.caller < |s.callers| ==>
        && s'.callers[u.caller].call == s.callers[u.caller].call
        && (u.item in s'.callers[u.caller].recorded <==> u.item in s.callers[u.caller].recorded)
    ensures WorkerResults(s', l, j)
  {
  }

  lemma KeepAllWorkers(s: State, s': State)
    requires AllWorkerResults(s) && s'.pools == s.pools && |s.callers| <= |s'.callers|
    requires forall c :: 0 <= c < |s.callers| ==>
      s'.callers[c].call == s.callers[c].call && s'.callers[c].recorded == s.callers[c].recorded
    ensures AllWorkerResults(s')
  {
    forall l, j | 0 <= l < |s'.pools| && 0 <= j < |s'.pools[l]| ensures WorkerResults(s', l, j) {
      assert WorkerResults(s, l, j);
      KeepWorkerResults(s, s', l, j);
    }
  }

  lemma SameCallers(s: State, s': State, c: nat)
    requires AllCallerResults(s) && |s.callers| == |s'.callers|
    requires forall d :: 0 <= d < |s.callers| && d != c ==> SameResults(s.callers[d], s'.callers[d])
    requires c < |s.callers| ==> CallerResults(s'.callers[c])
    ensures AllCallerResults(s')
  {
    forall d | 0 <= d < |s'.callers| ensures CallerResults(s'.callers[d]) { assert CallerResults(s.callers[d]); }
  }

  lemma ProducerShape(s: State, c: nat)
    requires ProducerEnabled(s, c)
    ensures
      var s' := ProducerNext(s, c);
      && s'.pools == s.pools && |s'.callers| == |s.callers|
      && (forall d :: 0 <= d < |s.callers| && d != c ==> SameResults(s.callers[d], s'.callers[d]))
      && (if s.callers[c].prod.Fetch? then s'.callers[c] == Fetched(s.callers[c])
          else SameResults(s.callers[c], s'.callers[c]))
  {
  }

  lemma ProducerResults(s: State, c: nat)
    requires ResultsOk(s) && ProducerEnabled(s, c)
    ensures ResultsOk(ProducerNext(s, c))
  {
    var s' := ProducerNext(s, c);
    ProducerShape(s, c);
    assert CallerResults(s.callers[c]);
    if s.callers[c].prod.Fetch? { FetchResults(s.callers[c]); }
    SameCallers(s, s', c);
    KeepAllWorkers(s, s');
  }

  // ---------------------------------------------------------------------------
  // The thread that called Apply
  // ---------------------------------------------------------------------------

  lemma SetUpResults(s: State, c: nat)
    requires LevelsOk(s) && ResultsOk(s) && WaiterEnabled(s, c) && SettingUp(s.callers[c].wait)
    ensures ResultsOk(SetUpNext(s, c))
  {
    var s' := SetUpNext(s, c);
    SameCallers(s, s', |s.callers|);
    forall l, j | 0 <= l < |s'.pools| && 0 <= j < |s'.pools[l]| ensures WorkerResults(s', l, j) {
      if IsWorker(s, l, j) {
        assert WorkerResults(s, l, j);
        KeepWorkerResults(s, s', l, j);
      }
    }
  }

  /** A worker steps without publishing a result. */
  lemma KeepOneWorker(s: State, l: nat, j: nat, w: Worker)
    requires AllWorkerResults(s) && IsWorker(s, l, j) && Holds(w) == Holds(s.pools[l][j])
    requires !w.act.Publish? && !s.pools[l][j].act.Publish? && !s.pools[l][j].act.Count?
    ensures AllWorkerResults(SetWorker(s, l, j, w))
  {
    var s' := SetWorker(s, l, j, w);
    forall m, x | 0 <= m < |s'.pools| && 0 <= x < |s'.pools[m]| ensures WorkerResults(s', m, x) {
      assert WorkerResults(s, m, x);
    }
  }

  lemma WaiterResults(s: State, c: nat)
    requires LevelsOk(s) && ResultsOk(s) && WaiterEnabled(s, c)
    ensures ResultsOk(WaiterNext(s, c))
  {
    var k, s' := s.callers[c], WaiterNext(s, c);
    if SettingUp(k.wait) { SetUpResults(s, c); }
    else {
      SameCallers(s, s', |s.callers|);
      var t := s.(callers := s'.callers);
      KeepAllWorkers(s, t);
      if k.wait.Check? && k.completed && k.parent.ByWorker? {
        var ByWorker(l, j) := k.parent;
        KeepOneWorker(t, l, j, Resume(s.pools[l][j], k));
      } else {
        assert s' == t;
      }
    }
  }

  // ---------------------------------------------------------------------------
  // The workers
  // ---------------------------------------------------------------------------

  /** The argument at the head of a queue was not recorded. */
  lemma HeadNotRecorded(s: State, l: nat, j: nat)
    requires Inv(s) && AllCallerResults(s) && IsWorker(s, l, j) && Holds(s.pools[l][j]).None?
    requires l < |s.queues| && s.queues[l] != [] && s.queues[l][0].Work?
    ensures
      var u := s.queues[l][0].u;
      ValidUnit(s, u) && u.item !in s.callers[u.caller].recorded
  {
    var u := s.queues[l][0].u;
    var k := s.callers[u.caller];
    assert EntryOk(s, l, s.queues[l][0]);
    assert CallerOk(k) && UnitsOk(s, u.caller) && CallerResults(k);
    TakenOk(k, s.queues[l], s.pools[l], j, s.pools[l][j].(act := Body(u, 0)), u.caller, u.item);
  }

  lemma TakeCaller(k: Caller, i: nat)
    requires CallerResults(k)
    ensures CallerResults(k.(taken := k.taken + [i]))
  {
  }

  lemma TakeCallers(s: State, c: nat, i: nat)
    requires ResultsOk(s) && c < |s.callers|
    ensures ResultsOk(SetCaller(s, c, s.callers[c].(taken := s.callers[c].taken + [i])))
  {
    var t := SetCaller(s, c, s.callers[c].(taken := s.callers[c].taken + [i]));
    assert CallerResults(s.callers[c]);
    TakeCaller(s.callers[c], i);
    SameCallers(s, t, c);
    KeepAllWorkers(s, t);
  }

  /** A worker takes up an argument that was not recorded; the queues do not matter. */
  lemma TakeWorker(s: State, s': State, l: nat, j: nat, w: Worker)
    requires AllWorkerResults(s) && IsWorker(s, l, j) && s'.callers == s.callers && s'.pools == s.pools[l := s.pools[l][j := w]]
    requires w.act.Body? && ValidUnit(s, w.act.u) && w.act.u.item !in s.callers[w.act.u.caller].recorded
    ensures AllWorkerResults(s')
  {
    forall m, x | 0 <= m < |s'.pools| && 0 <= x < |s'.pools[m]| ensures WorkerResults(s', m, x) {
      assert WorkerResults(s, m, x);
    }
  }

  lemma TakeResults(s: State, l: nat, j: nat)
    requires Inv(s) && ResultsOk(s) && WorkerEnabled(s, l, j) && s.pools[l][j].act.Idle? && s.queues[l][0].Work?
    ensures ResultsOk(WorkerNext(s, l, j))
  {
    var s' := WorkerNext(s, l, j);
    var u := s.queues[l][0].u;
    HeadNotRecorded(s, l, j);
    TakeCallers(s, u.caller, u.item);
    TakeWorker(s.(callers := s'.callers), s', l, j, s'.pools[l][j]);
  }

  /** Recording the result of argument `i`. */
  lemma RecordedOk(k: Caller, i: nat)
    requires CallerResults(k) && k.call.wantResults && i in k.taken && i !in k.recorded
    requires IsTask(k.call.events, i) && i < k.next && !TaskFails(k.call.events[i].task)
    ensures CallerResults(k.(results := k.results + [k.call.events[i].task.outcome.value], recorded := k.recorded + {i}))
  {
    ValueBagRecord(k.call.events, k.next, k.recorded, i);
  }

  lemma HeldIsTaken(s: State, l: nat, j: nat)
    requires Inv(s) && IsWorker(s, l, j) && Holds(s.pools[l][j]).Some?
    ensures
      var u := Holds(s.pools[l][j]).value;
      && u.caller < |s.callers| && s.callers[u.caller].level == l
      && u.item in s.callers[u.caller].taken && u.item < s.callers[u.caller].next
      && Held(s.pools[l], u) == 1
  {
    assert WorkerOk(s, l, j);
    var u := Holds(s.pools[l][j]).value;
    assert UnitsOk(s, u.caller);
    assert UnitOk(s.callers[u.caller], Queue(s, l), PoolAt(s, l), u);
    PositiveHeld(s.pools[l], j, u);
    assert multiset(s.callers[u.caller].taken)[u.item] > 0;
  }

  /** No other worker holds the same argument. */
  lemma OthersDiffer(s: State, l: nat, j: nat, m: nat, x: nat)
    requires Inv(s) && IsWorker(s, l, j) && IsWorker(s, m, x) && (m != l || x != j)
    requires Holds(s.pools[l][j]).Some?
    ensures Holds(s.pools[m][x]) != Holds(s.pools[l][j])
  {
    HeldIsTaken(s, l, j);
    if Holds(s.pools[m][x]) == Holds(s.pools[l][j]) {
      HeldIsTaken(s, m, x);
      OnlyHolder(s, l, j, x, Holds(s.pools[l][j]).value);
    }
  }

  lemma RecordWorkers(s: State, l: nat, j: nat)
    requires Inv(s) && AllWorkerResults(s) && WorkerEnabled(s, l, j) && s.pools[l][j].act.Record?
    ensures AllWorkerResults(WorkerNext(s, l, j))
  {
    var s' := WorkerNext(s, l, j);
    var u := s.pools[l][j].act.u;
    assert WorkerResults(s, l, j) && WorkerOk(s, l, j);
    forall m, x | 0 <= m < |s'.pools| && 0 <= x < |s'.pools[m]| ensures WorkerResults(s', m, x) {
      assert WorkerResults(s, m, x);
      if m != l || x != j {
        OthersDiffer(s, l, j, m, x);
        KeepWorkerResults(s, s', m, x);
      }
    }
  }

  /** What recording makes of the caller. */
  lemma RecordCaller(s: State, l: nat, j: nat)
    requires Inv(s) && ResultsOk(s) && WorkerEnabled(s, l, j) && s.pools[l][j].act.Record?
    ensures CallerResults(WorkerNext(s, l, j).callers[s.pools[l][j].act.u.caller])
  {
    var u := s.pools[l][j].act.u;
    var k := s.callers[u.caller];
    HeldIsTaken(s, l, j);
    assert WorkerOk(s, l, j) && WorkerResults(s, l, j) && CallerResults(k);
    if k.call.wantResults { RecordedOk(k, u.item); }
  }

  lemma RecordResults(s: State, l: nat, j: nat)
    requires Inv(s) && ResultsOk(s) && WorkerEnabled(s, l, j) && s.pools[l][j].act.Record?
    ensures ResultsOk(WorkerNext(s, l, j))
  {
    RecordCaller(s, l, j);
    SameCallers(s, WorkerNext(s, l, j), s.pools[l][j].act.u.caller);
    RecordWorkers(s, l, j);
  }

  lemma PublishResults(s: State, l: nat, j: nat)
    requires ResultsOk(s) && WorkerEnabled(s, l, j) && s.pools[l][j].act.Publish?
    ensures ResultsOk(WorkerNext(s, l, j))
  {
    var s' := WorkerNext(s, l, j);
    var u := s.pools[l][j].act.u;
    assert WorkerResults(s, l, j) && CallerResults(s.callers[u.caller]);
    SameCallers(s, s', u.caller);
    var t := s.(callers := s'.callers);
    KeepAllWorkers(s, t);
    forall m, x | 0 <= m < |s'.pools| && 0 <= x < |s'.pools[m]| ensures WorkerResults(s', m, x) {
      assert WorkerResults(t, m, x);
    }
  }

  /** Steps of a worker that touch neither results nor deltas. */
  lemma LocalResults(s: State, l: nat, j: nat)
    requires ResultsOk(s) && WorkerEnabled(s, l, j)
    requires var a := s.pools[l][j].act;
      || a.Count? || a.CompareDone? || a.NotifyDone?
      || (a.Idle? && s.queues[l][0].ZeroTasks?)
      || (a.Body? && (a.k == |TaskOf(s, a.u).actions| || TaskOf(s, a.u).actions[a.k].Bump?))
    ensures ResultsOk(WorkerNext(s, l, j))
  {
    var s' := WorkerNext(s, l, j);
    SameCallers(s, s', |s.callers|);
    var t := s.(callers := s'.callers);
    KeepAllWorkers(s, t);
    forall m, x | 0 <= m < |s'.pools| && 0 <= x < |s'.pools[m]| ensures WorkerResults(s', m, x) {
      assert WorkerResults(t, m, x);
    }
  }

  lemma HandleResults(s: State, l: nat, j: nat)
    requires WorkersOk(s) && ResultsOk(s) && WorkerEnabled(s, l, j) && s.pools[l][j].act.Handle?
    ensures ResultsOk(WorkerNext(s, l, j))
  {
    var s' := WorkerNext(s, l, j);
    assert WorkerOk(s, l, j);
    forall m, x | 0 <= m < |s'.pools| && 0 <= x < |s'.pools[m]| ensures WorkerResults(s', m, x) {
      assert WorkerResults(s, m, x);
    }
  }

  lemma CallResults(s: State, l: nat, j: nat)
    requires ResultsOk(s) && WorkerEnabled(s, l, j) && s.pools[l][j].act.Body?
    requires
      var Body(u, k) := s.pools[l][j].act;
      k < |TaskOf(s, u).actions| && TaskOf(s, u).actions[k].CallApply?
    ensures ResultsOk(WorkerNext(s, l, j))
  {
    var s' := WorkerNext(s, l, j);
    forall d | 0 <= d < |s'.callers| ensures CallerResults(s'.callers[d]) {
      if d < |s.callers| { assert CallerResults(s.callers[d]); }
    }
    var t := s.(callers := s'.callers);
    KeepAllWorkers(s, t);
    KeepOneWorker(t, l, j, s'.pools[l][j]);
  }

  lemma WorkerKeepsResults(s: State, l: nat, j: nat)
    requires Inv(s) && ResultsOk(s) && WorkerEnabled(s, l, j)
    ensures ResultsOk(WorkerNext(s, l, j))
  {
    var a := s.pools[l][j].act;
    if a.Idle? && s.queues[l][0].Work? { TakeResults(s, l, j); }
    else if a.Body? && a.k < |TaskOf(s, a.u).actions| && TaskOf(s, a.u).actions[a.k].CallApply? { CallResults(s, l, j); }
    else if a.Record? { RecordResults(s, l, j); }
    else if a.Handle? { HandleResults(s, l, j); }
    else if a.Publish? { PublishResults(s, l, j); }
    else { LocalResults(s, l, j); }
  }

  // ---------------------------------------------------------------------------
  // Whole runs
  // ---------------------------------------------------------------------------

  lemma {:induction false} RunResults(s: State, steps: seq<Step>, s': State)
    requires Inv(s) && ResultsOk(s) && Run(s, steps, s')
    ensures ResultsOk(s')
    decreases |steps|
  {
    if steps != [] {
      StepResults(s, steps[0]);
      RunResults(Next(s, steps[0]), steps[1..], s');
    }
  }

  lemma StepResults(s: State, step: Step)
    requires Inv(s) && ResultsOk(s) && Enabled(s, step)
    ensures Inv(Next(s, step)) && ResultsOk(Next(s, step))
  {
    StepKeeps(s, step);
    match step
    case WaiterStep(c) => WaiterResults(s, c);
    case ProducerStep(c) => ProducerResults(s, c);
    case WorkerStep(l, j) => WorkerKeepsResults(s, l, j);
  }

  /** When a call is completed, what it returns is a permutation of what `_SequentialApply` returns. */
  lemma ResultsPermuted(call: Call, threads: nat, attr: int, s: State, c: nat)
    requires Reachable(call, threads, attr, s) && c < |s.callers| && s.callers[c].completed
    ensures multiset(s.callers[c].results) == multiset(CallValues(s.callers[c].call))
  {
    var steps :| Run(Init(call, threads, attr), steps, s);
    InitInv(call, threads, attr);
    assert ResultsOk(Init(call, threads, attr)) by {
      assert Accepted(call.events, 0) == {};
    }
    RunResults(Init(call, threads, attr), steps, s);
    RunKeeps(Init(call, threads, attr), steps, s);
    CompletedResults(s, c);
  }

  lemma CompletedResults(s: State, c: nat)
    requires Inv(s) && ResultsOk(s) && c < |s.callers| && s.callers[c].completed
    ensures multiset(s.callers[c].results) == multiset(CallValues(s.callers[c].call))
  {
    var k := s.callers[c];
    assert CallerOk(k) && UnitsOk(s, c) && CallerResults(k);
    CompletedDone(k, Queue(s, k.level), PoolAt(s, k.level), c);
    if k.call.wantResults {
      ValueBagOfValues(k.call.events, k.next, k.recorded);
      EventsValuesAgree(k.call.events, k.next, k.recorded, k.done);
    }
  }
}
