/** Nested calls that raise make changes of a shared attribute vanish from the parallel Apply, whatever
    the schedule. */
module ApplyLosses {
  import opened Wrappers
  import opened ApplyProgram
  import opened ApplyMachine
  import opened ApplyInvariant
  import opened ApplyPreserve
  import opened ApplyWorkers
  import opened ApplyTermination
  import opened ApplyShared
  import opened ApplyRefinement

  /** The function runs into a nested call that shares the attribute and raises, and its handler adds
      nothing. */
  predicate Forgets(t: Task) {
    Halt(t) < |t.actions| && t.actions[Halt(t)].call.shared && t.onError == 0
  }

  /** A call that shares the attribute, all of whose tasks end like that. */
  predicate Forgetful(call: Call) {
    && call.shared
    && forall i :: 0 <= i < |call.events| ==>
         !call.events[i].IterError? && (IsTask(call.events, i) ==> Forgets(call.events[i].task))
  }

  // ---------------------------------------------------------------------------
  // Nothing of a forgetful call is ever published
  // ---------------------------------------------------------------------------

  ghost predicate CallerZero(k: Caller) {
    Forgetful(k.call) ==> k.sharedVar == 0 && !k.prod.PublishError?
  }

  /** Outside the function itself the attribute of the worker's copy for caller `c` is 0. */
  ghost predicate Zero(s: State, w: Worker, c: nat) {
    && Last(w, c) == 0
    && match w.act
       case Body(u, _) => u.caller == c || Attr(w, c) == 0
       case InApply(u, _, child, _) => (u.caller == c && !ChildShares(s, child)) || Attr(w, c) == 0
       case _ => Attr(w, c) == 0
  }

  ghost predicate WorkerZero(s: State, w: Worker) {
    forall c: nat :: c < |s.callers| && Forgetful(s.callers[c].call) ==> Zero(s, w, c)
  }

  ghost predicate ZeroOk(s: State) {
    && (forall c :: 0 <= c < |s.callers| ==> CallerZero(s.callers[c]))
    && forall l, j :: 0 <= l < |s.pools| && 0 <= j < |s.pools[l]| ==> WorkerZero(s, s.pools[l][j])
  }

  /** The frame of a step: one caller and one worker change, and new ones may come. */
  lemma ZeroStep(s: State, s': State, c: nat, l: nat, j: nat)
    requires SharedOk(s) && ZeroOk(s) && SameCalls(s, s')
    requires forall d :: 0 <= d < |s.callers| && d != c ==> SameShared(s.callers[d], s'.callers[d])
    requires forall d :: 0 <= d < |s'.callers| && (d >= |s.callers| || d == c) ==> CallerZero(s'.callers[d])
    requires forall m, x :: 0 <= m < |s'.pools| && 0 <= x < |s'.pools[m]| ==>
      || (m == l && x == j)
      || s'.pools[m][x] == FRESH_WORKER
      || (IsWorker(s, m, x) && s'.pools[m][x] == s.pools[m][x])
    requires IsWorker(s', l, j) ==> WorkerZero(s', s'.pools[l][j])
    ensures ZeroOk(s')
  {
    forall d | 0 <= d < |s'.callers| ensures CallerZero(s'.callers[d]) {
      if d < |s.callers| { assert CallerZero(s.callers[d]); }
    }
    forall m, x | 0 <= m < |s'.pools| && 0 <= x < |s'.pools[m]| ensures WorkerZero(s', s'.pools[m][x]) {
      if (m != l || x != j) && IsWorker(s, m, x) && s'.pools[m][x] == s.pools[m][x] {
        assert WorkerShared(s, m, x);
        OtherWorker(s, s', s.pools[m][x]);
      }
    }
  }

  lemma OtherWorker(s: State, s': State, w: Worker)
    requires WorkerZero(s, w) && SameCalls(s, s') && KnownCallers(w, |s.callers|)
    ensures WorkerZero(s', w)
  {
    forall c: nat | c < |s'.callers| && Forgetful(s'.callers[c].call) ensures Zero(s', w, c) {
      if c < |s.callers| { assert Zero(s, w, c); }
    }
  }

  lemma ProducerZero(s: State, c: nat)
    requires SharedOk(s) && ZeroOk(s) && ProducerEnabled(s, c)
    ensures ZeroOk(ProducerNext(s, c))
  {
    ProducerShape(s, c);
    assert CallerZero(s.callers[c]);
    ZeroStep(s, ProducerNext(s, c), c, |s.pools|, 0);
  }

  lemma ResumeZero(s: State, l: nat, j: nat, k: Caller)
    requires ZeroOk(s) && IsWorker(s, l, j) && WorkerOk(s, l, j) && s.pools[l][j].act.InApply?
    requires k == s.callers[s.pools[l][j].act.child] && k.failed == CallRaises(k.call)
    ensures WorkerZero(s, Resume(s.pools[l][j], k))
  {
    var w := s.pools[l][j];
    var t := TaskOf(s, w.act.u);
    assert k.failed ==> RaisingAction(t.actions[w.act.k]) && Halt(t) == w.act.k;
    forall c: nat | c < |s.callers| && Forgetful(s.callers[c].call) ensures Zero(s, Resume(w, k), c) {
      assert Zero(s, w, c);
      if w.act.u.caller == c { assert Forgets(t); }
    }
  }

  lemma SetUpZero(s: State, c: nat)
    requires LevelsOk(s) && SharedOk(s) && ZeroOk(s) && WaiterEnabled(s, c) && SettingUp(s.callers[c].wait)
    ensures ZeroOk(SetUpNext(s, c))
  {
    SetUpParts(s, c);
    ZeroStep(s, SetUpNext(s, c), |s.callers|, |SetUpNext(s, c).pools|, 0);
  }

  lemma MoveZero(s: State, c: nat, k': Caller)
    requires SharedOk(s) && ZeroOk(s) && c < |s.callers| && SameShared(s.callers[c], k') && k'.level == s.callers[c].level
    ensures ZeroOk(SetCaller(s, c, k'))
  {
    assert CallerZero(s.callers[c]);
    ZeroStep(s, SetCaller(s, c, k'), c, |s.pools|, 0);
  }

  /** The worker that goes on, in the state in which the nested call has returned. */
  lemma ResumedZero(s: State, c: nat, l: nat, j: nat)
    requires Inv(s) && SharedOk(s) && ZeroOk(s) && c < |s.callers| && IsWorker(s, l, j)
    requires s.pools[l][j].act.InApply? && s.pools[l][j].act.child == c && s.callers[c].completed
    ensures WorkerZero(SetCaller(s, c, s.callers[c].(wait := Returned)), Resume(s.pools[l][j], s.callers[c]))
  {
    var k := s.callers[c];
    assert CallerOk(k) && WorkerOk(s, l, j) && WorkerShared(s, l, j);
    ResumeZero(s, l, j, k);
    OtherWorker(s, SetCaller(s, c, k.(wait := Returned)), Resume(s.pools[l][j], k));
  }

  lemma ReturnZero(s: State, c: nat, l: nat, j: nat)
    requires Inv(s) && SharedOk(s) && ZeroOk(s) && WaiterEnabled(s, c)
    requires var k := s.callers[c]; k.wait.Check? && k.completed && k.parent == ByWorker(l, j)
    ensures ZeroOk(WaiterNext(s, c))
  {
    var k := s.callers[c];
    CallerOnly(s, c, k.(wait := Returned));
    MoveZero(s, c, k.(wait := Returned));
    ResumedZero(s, c, l, j);
    OneWorkerZero(SetCaller(s, c, k.(wait := Returned)), l, j, Resume(s.pools[l][j], k));
  }

  lemma OneWorkerZero(s: State, l: nat, j: nat, w: Worker)
    requires SharedOk(s) && ZeroOk(s) && IsWorker(s, l, j) && WorkerZero(s, w)
    ensures ZeroOk(SetWorker(s, l, j, w))
  {
    ZeroStep(s, SetWorker(s, l, j, w), |s.callers|, l, j);
  }

  lemma WaiterZero(s: State, c: nat)
    requires Inv(s) && SharedOk(s) && ZeroOk(s) && WaiterEnabled(s, c)
    ensures ZeroOk(WaiterNext(s, c))
  {
    var k := s.callers[c];
    if SettingUp(k.wait) { SetUpZero(s, c); }
    else if k.wait.StartProducer? {
      assert CallerOk(k);
      MoveZero(s, c, k.(wait := Check, prod := Fetch));
    }
    else if !k.completed { MoveZero(s, c, k.(wait := Waiting)); }
    else if k.parent.ByWorker? { ReturnZero(s, c, k.parent.level, k.parent.index); }
    else { MoveZero(s, c, k.(wait := Returned)); }
  }

  // ---------------------------------------------------------------------------
  // The workers
  // ---------------------------------------------------------------------------

  lemma TakeZero(s: State, l: nat, j: nat)
    requires Inv(s) && SharedOk(s) && ZeroOk(s) && WorkerEnabled(s, l, j) && s.pools[l][j].act.Idle?
    ensures ZeroOk(WorkerNext(s, l, j))
  {
    var w, s' := s.pools[l][j], WorkerNext(s, l, j);
    forall c: nat | c < |s'.callers| && Forgetful(s'.callers[c].call) ensures Zero(s', s'.pools[l][j], c) {
      assert Zero(s, w, c);
    }
    ZeroStep(s, s', |s.callers|, l, j);
  }

  /** What a worker's step leaves alone: other workers, and all callers but the one of its task. */
  ghost predicate Framed(s: State, s': State, l: nat, j: nat)
    requires IsWorker(s, l, j)
  {
    && SameCalls(s, s') && IsWorker(s', l, j)
    && (forall c :: 0 <= c < |s.callers| && c != TaskCaller(s, l, j) ==> SameShared(s.callers[c], s'.callers[c]))
    && (forall c :: |s.callers| <= c < |s'.callers| ==> CallerZero(s'.callers[c]))
    && (forall m, x :: 0 <= m < |s'.pools| && 0 <= x < |s'.pools[m]| && (m != l || x != j) ==>
          IsWorker(s, m, x) && s'.pools[m][x] == s.pools[m][x])
  }

  lemma BodyFrame(s: State, l: nat, j: nat)
    requires WorkerEnabled(s, l, j) && s.pools[l][j].act.Body?
    ensures Framed(s, WorkerNext(s, l, j), l, j)
  {
  }

  lemma EndFrame(s: State, l: nat, j: nat)
    requires WorkerEnabled(s, l, j) && !s.pools[l][j].act.Idle? && !s.pools[l][j].act.Body?
    ensures Framed(s, WorkerNext(s, l, j), l, j)
  {
  }

  function TaskCaller(s: State, l: nat, j: nat): nat
    requires IsWorker(s, l, j)
  {
    if Holds(s.pools[l][j]).Some? then Holds(s.pools[l][j]).value.caller else |s.callers|
  }

  lemma BodyWorker(s: State, l: nat, j: nat)
    requires ZeroOk(s) && WorkerEnabled(s, l, j) && s.pools[l][j].act.Body?
    requires WorkerOk(s, l, j) && KnownCallers(s.pools[l][j], |s.callers|)
    ensures WorkerZero(WorkerNext(s, l, j), WorkerNext(s, l, j).pools[l][j])
  {
    var w, s' := s.pools[l][j], WorkerNext(s, l, j);
    forall c: nat | c < |s'.callers| && Forgetful(s'.callers[c].call) ensures Zero(s', s'.pools[l][j], c) {
      if c < |s.callers| {
        assert Zero(s, w, c);
        if w.act.u.caller == c { assert Forgets(TaskOf(s, w.act.u)); }
      }
    }
  }

  /** The handler adds nothing. */
  lemma EndWorker(s: State, l: nat, j: nat)
    requires ZeroOk(s) && WorkerEnabled(s, l, j) && !s.pools[l][j].act.Idle? && !s.pools[l][j].act.Body?
    ensures WorkerZero(WorkerNext(s, l, j), WorkerNext(s, l, j).pools[l][j])
  {
    var w, s' := s.pools[l][j], WorkerNext(s, l, j);
    EndFrame(s, l, j);
    forall c: nat | c < |s'.callers| && Forgetful(s'.callers[c].call) ensures Zero(s', s'.pools[l][j], c) {
      EndZero(s, l, j, c);
    }
  }

  lemma EndZero(s: State, l: nat, j: nat, c: nat)
    requires WorkerEnabled(s, l, j) && !s.pools[l][j].act.Idle? && !s.pools[l][j].act.Body?
    requires c < |s.callers| && Forgetful(s.callers[c].call) && WorkerZero(s, s.pools[l][j])
    ensures Zero(WorkerNext(s, l, j), WorkerNext(s, l, j).pools[l][j], c)
  {
    var w := s.pools[l][j];
    assert Zero(s, w, c);
    if w.act.Handle? && w.act.u.caller == c { assert Forgets(TaskOf(s, w.act.u)); }
  }

  /** So nothing is published. */
  lemma EndCaller(s: State, l: nat, j: nat)
    requires ZeroOk(s) && WorkerEnabled(s, l, j) && Holds(s.pools[l][j]).Some?
    ensures CallerZero(WorkerNext(s, l, j).callers[TaskCaller(s, l, j)])
  {
    var d := TaskCaller(s, l, j);
    assert CallerZero(s.callers[d]);
    if Forgetful(s.callers[d].call) { assert Zero(s, s.pools[l][j], d); }
  }

  lemma WorkerKeepsZero(s: State, l: nat, j: nat)
    requires Inv(s) && SharedOk(s) && ZeroOk(s) && WorkerEnabled(s, l, j) && !s.pools[l][j].act.Idle?
    ensures ZeroOk(WorkerNext(s, l, j))
  {
    if Holds(s.pools[l][j]).Some? { EndCaller(s, l, j); }
    if s.pools[l][j].act.Body? {
      BodyFrame(s, l, j);
      assert WorkerOk(s, l, j) && WorkerShared(s, l, j);
      BodyWorker(s, l, j);
    } else {
      EndFrame(s, l, j);
      EndWorker(s, l, j);
    }
    ZeroStep(s, WorkerNext(s, l, j), TaskCaller(s, l, j), l, j);
  }

  lemma StepZero(s: State, step: Step)
    requires Inv(s) && SharedOk(s) && ZeroOk(s) && Enabled(s, step)
    ensures ZeroOk(Next(s, step))
  {
    match step
    case WaiterStep(c) => WaiterZero(s, c);
    case ProducerStep(c) => ProducerZero(s, c);
    case WorkerStep(l, j) =>
      if s.pools[l][j].act.Idle? { TakeZero(s, l, j); } else { WorkerKeepsZero(s, l, j); }
  }

  lemma {:induction false} RunZero(s: State, steps: seq<Step>, s': State)
    requires Inv(s) && SharedOk(s) && ZeroOk(s) && Run(s, steps, s')
    ensures ZeroOk(s')
    decreases |steps|
  {
    if steps != [] {
      StepZero(s, steps[0]);
      StepShared(s, steps[0]);
      RunZero(Next(s, steps[0]), steps[1..], s');
    }
  }

  /** If every task of a call ends in a nested sharing call that raises, then for every number of threads
      and every schedule the shared variable stays 0: all that its functions and the nested calls changed
      is lost. */
  lemma ForgetfulLosesAll(call: Call, threads: nat, attr: int, s: State, c: nat)
    requires Reachable(call, threads, attr, s)
    requires c < |s.callers| && s.callers[c].completed && Forgetful(s.callers[c].call)
    ensures s.callers[c].sharedVar == 0 && s.callers[c].lost == CallDelta(s.callers[c].call)
  {
    var steps :| Run(Init(call, threads, attr), steps, s);
    InitInv(call, threads, attr);
    InitShared(call, threads, attr);
    RunZero(Init(call, threads, attr), steps, s);
    assert CallerZero(s.callers[c]);
    SharedVariableExact(call, threads, attr, s, c);
  }

  // ---------------------------------------------------------------------------
  // A program that loses its own changes and those of a nested call
  // ---------------------------------------------------------------------------

  /** A nested call whose task adds `e`, and whose `arg_checker` then raises. */
  function Inner(e: int): Call {
    Call([Item(true, Task([Bump(e)], Returns(0), 0)), CheckerError], true, false)
  }

  /** A call whose task adds `d` and then makes that nested call. */
  function Outer(d: int, e: int): Call {
    Call([Item(true, Task([Bump(d), CallApply(Inner(e))], Returns(0), 0))], true, false)
  }

  lemma InnerChange(e: int)
    ensures CallDelta(Inner(e)) == e && CallRaises(Inner(e)) && CallAttr(Inner(e), 0) == e
    ensures forall a :: CallAttr(Inner(e), a) == e
  {
    var events := Inner(e).events;
    var t := events[0].task;
    assert StopFrom(events, 1) == 1;
    assert Stop(events) == 1 && Halt(t) == 1;
    PrefixStep(events, 0);
    assert ActionsDelta(t.actions, 1) == ActionsDelta(t.actions, 0) + e;
    assert ActionsAttr(t.actions, 1, 0) == ActionsAttr(t.actions, 0, 0) + e;
    assert EventsAttr(events, 1, 0) == EventAttr(events[0], EventsAttr(events, 0, 0)) == e;
  }

  lemma OuterChange(d: int, e: int)
    ensures Forgetful(Outer(d, e)) && !CallRaises(Outer(d, e))
    ensures CallDelta(Outer(d, e)) == d + e && CallAttr(Outer(d, e), 0) == e
  {
    InnerChange(e);
    var events := Outer(d, e).events;
    var t := events[0].task;
    assert !RaisingAction(t.actions[0]) && RaisingAction(t.actions[1]);
    assert HaltFrom(t.actions, 1) == 1;
    assert Stop(events) == 1 && Halt(t) == 1 && Executed(t) == 2;
    PrefixStep(events, 0);
    assert ActionsDelta(t.actions, 1) == ActionsDelta(t.actions, 0) + d;
    assert ActionsDelta(t.actions, 2) == ActionsDelta(t.actions, 1) + e;
    assert ActionsAttr(t.actions, 2, 0) == CallAttr(Inner(e), ActionsAttr(t.actions, 1, 0)) == e;
    assert TaskAttr(t, 0) == e && EventsAttr(events, 0, 0) == 0;
    assert EventsAttr(events, 1, 0) == EventAttr(events[0], 0) == e;
  }

  /** Without threads only `d` is lost. With threads `e` is lost as well, in every schedule, and there is
      a schedule that returns. */
  lemma ChangesAreLost(d: int, e: int, threads: nat) returns (s: State)
    requires threads > 0
    ensures Reachable(Outer(d, e), threads, 0, s) && |s.callers| > 0 && s.callers[0].wait.Returned?
    ensures s.callers[0].lost == d + e == CallDelta(Outer(d, e))
    ensures RootAttribute(s, 0) == 0 && CallAttr(Outer(d, e), 0) == e
  {
    OuterChange(d, e);
    assert Run(Init(Outer(d, e), threads, 0), [], Init(Outer(d, e), threads, 0));
    s := SomeRunReturns(Outer(d, e), threads, 0, Init(Outer(d, e), threads, 0));
    RootCall(Outer(d, e), threads, 0, s);
    ForgetfulLosesAll(Outer(d, e), threads, 0, s, 0);
  }
}
