/** A parallel Apply against the sequential one. */
module ApplyRefinement {
  import opened Wrappers
  import opened ApplyAttribute
  import opened ApplyProgram
  import opened ApplyMachine
  import opened ApplyInvariant
  import opened ApplyPreserve
  import opened ApplyWorkers
  import opened ApplyDeadlock
  import ApplyResults
  import ApplyShared

  /** What the outermost Apply hands back to the main thread. */
  function RootResult(s: State): Result<seq<Value>, ()>
    requires |s.callers| > 0
  {
    if s.callers[0].failed then Err(()) else Ok(s.callers[0].results)
  }

  /** The attribute of the main thread's command afterwards. The tasks and the producer change copies of
      it; the command itself only has a shared attribute set to 0, and set to its original value plus the
      shared variable when Apply returns. */
  function RootAttribute(s: State, attr: int): int
    requires |s.callers| > 0
  {
    var k := s.callers[0];
    if !k.call.shared then attr else if k.failed then 0 else attr + k.sharedVar
  }

  lemma WaiterSameCalls(s: State, c: nat)
    requires WaiterEnabled(s, c)
    ensures SameCalls(s, WaiterNext(s, c))
  {
  }

  lemma ProducerSameCalls(s: State, c: nat)
    requires ProducerEnabled(s, c)
    ensures SameCalls(s, ProducerNext(s, c))
  {
  }

  lemma WorkerSameCalls(s: State, l: nat, j: nat)
    requires WorkerEnabled(s, l, j)
    ensures SameCalls(s, WorkerNext(s, l, j))
  {
  }

  lemma StepSameCalls(s: State, step: Step)
    requires Enabled(s, step)
    ensures SameCalls(s, Next(s, step))
  {
    match step
    case WaiterStep(c) => WaiterSameCalls(s, c);
    case ProducerStep(c) => ProducerSameCalls(s, c);
    case WorkerStep(l, j) => WorkerSameCalls(s, l, j);
  }

  lemma {:induction false} RunSameCalls(s: State, steps: seq<Step>, s': State)
    requires Run(s, steps, s')
    ensures SameCalls(s, s')
    decreases |steps|
  {
    if steps != [] {
      StepSameCalls(s, steps[0]);
      RunSameCalls(Next(s, steps[0]), steps[1..], s');
    }
  }

  lemma RootCall(call: Call, threads: nat, attr: int, s: State)
    requires Reachable(call, threads, attr, s) && |s.callers| > 0 && s.callers[0].wait.Returned?
    ensures s.callers[0].call == call && s.callers[0].completed && s.callers[0].failed == CallRaises(call)
  {
    var steps :| Run(Init(call, threads, attr), steps, s);
    RunSameCalls(Init(call, threads, attr), steps, s);
    ReachableInv(call, threads, attr, s);
    assert CallerOk(s.callers[0]);
  }

  /** Every schedule that returns from the outermost call raises in the same cases as the sequential
      Apply, and returns the same values up to order. */
  lemma ParallelRefinesSequential(call: Call, threads: nat, attr: int, s: State)
    requires Reachable(call, threads, attr, s)
    requires |s.callers| > 0 && s.callers[0].wait.Returned?
    ensures RootResult(s).Err? <==> CallRaises(call)
    ensures RootResult(s).Ok? ==> multiset(RootResult(s).value) == multiset(CallValues(call))
  {
    RootCall(call, threads, attr, s);
    ApplyResults.ResultsPermuted(call, threads, attr, s, 0);
  }

  /** The attribute that any schedule of any program leaves. */
  lemma ParallelAttribute(call: Call, threads: nat, attr: int, s: State)
    requires Reachable(call, threads, attr, s)
    requires |s.callers| > 0 && s.callers[0].wait.Returned?
    ensures RootAttribute(s, attr) ==
      if !call.shared then attr
      else if CallRaises(call) then 0
      else attr + CallDelta(call) - s.callers[0].lost
    ensures CallQuiet(call) ==> s.callers[0].lost == 0
  {
    RootCall(call, threads, attr, s);
    if call.shared { ApplyShared.SharedVariableExact(call, threads, attr, s, 0); }
    if CallQuiet(call) { ApplyShared.QuietLosesNothing(call, threads, attr, s, 0); }
  }

  /** How much more the sequential Apply changes the attribute than a schedule that lost `lost`: a call
      that shares it and returns publishes all that is neither hidden in copies nor lost; any other
      publishes nothing; and the sequential Apply keeps all that it does not forget itself. */
  function Difference(call: Call, attr: int, lost: int): int {
    (if call.shared && !CallRaises(call) then lost else CallDelta(call)) + Hidden(call)
    - Forgotten(call, if call.shared then 0 else attr)
  }

  /** For every program, number of threads and schedule: the attribute after a parallel Apply, against the
      one after the sequential Apply. They are equal if and only if on balance nothing is lost, hidden or
      forgotten by one of them only. */
  lemma AttributeAgainstSequential(call: Call, threads: nat, attr: int, s: State)
    requires Reachable(call, threads, attr, s)
    requires |s.callers| > 0 && s.callers[0].wait.Returned?
    ensures CallAttr(call, attr) == RootAttribute(s, attr) + Difference(call, attr, s.callers[0].lost)
    ensures RootAttribute(s, attr) == CallAttr(call, attr) <==> Difference(call, attr, s.callers[0].lost) == 0
  {
    ParallelAttribute(call, threads, attr, s);
    CallSum(call, attr);
  }

  /** If no nested call that shares the attribute raises, nothing is lost and nothing forgotten but by the
      call itself: whether the two are equal does not depend on the schedule. */
  lemma QuietAttribute(call: Call, threads: nat, attr: int, s: State)
    requires CallQuiet(call) && Reachable(call, threads, attr, s)
    requires |s.callers| > 0 && s.callers[0].wait.Returned?
    ensures RootAttribute(s, attr) == CallAttr(call, attr) <==>
            Hidden(call) + (if call.shared && !CallRaises(call) then 0 else CallDelta(call)) == 0
    ensures call.shared && !CallRaises(call) && NestedShare(call) ==> RootAttribute(s, attr) == CallAttr(call, attr)
  {
    AttributeAgainstSequential(call, threads, attr, s);
    ParallelAttribute(call, threads, attr, s);
    QuietForgetsNothing(call, if call.shared then 0 else attr);
    if NestedShare(call) { NestedShareHidesNothing(call); }
  }

  // ---------------------------------------------------------------------------
  // A program on which they differ
  // ---------------------------------------------------------------------------

  /** A shared call whose task makes a nested call that does not share the attribute, and whose task adds 1. */
  const NESTED := Call([Item(true, Task([Bump(1)], Returns(0), 0))], false, false)
  const UNSHARED_INSIDE := Call([Item(true, Task([CallApply(NESTED)], Returns(7), 0))], true, true)

  lemma NestedChange()
    ensures CallDelta(NESTED) == 1 && Hidden(NESTED) == 0 && Stop(NESTED.events) == 1 && !CallRaises(NESTED)
  {
    var t := NESTED.events[0].task;
    assert Stop(NESTED.events) == 1 && Halt(t) == 1;
    PrefixStep(NESTED.events, 0);
    assert ActionsDelta(t.actions, 1) == ActionsDelta(t.actions, 0) + 1;
    assert HiddenActions(t.actions, 1) == HiddenActions(t.actions, 0) + 0;
    assert HiddenEvents(NESTED.events, 1) == HiddenEvents(NESTED.events, 0) + HiddenTask(t);
  }

  lemma OuterChange()
    ensures CallDelta(UNSHARED_INSIDE) == 0 && Hidden(UNSHARED_INSIDE) == 1
    ensures CallQuiet(UNSHARED_INSIDE) && !CallRaises(UNSHARED_INSIDE)
  {
    NestedChange();
    var t := UNSHARED_INSIDE.events[0].task;
    assert TaskQuiet(NESTED.events[0].task) && EventQuiet(NESTED.events[0]);
    assert ActionQuiet(t.actions[0]) && EventQuiet(UNSHARED_INSIDE.events[0]);
    assert Stop(UNSHARED_INSIDE.events) == 1 && Halt(t) == 1;
    PrefixStep(UNSHARED_INSIDE.events, 0);
    assert ActionsDelta(t.actions, 1) == ActionsDelta(t.actions, 0) + 0;
    assert HiddenActions(t.actions, 1) == HiddenActions(t.actions, 0) + HiddenAction(t.actions[0]);
    assert HiddenEvents(UNSHARED_INSIDE.events, 1) == HiddenEvents(UNSHARED_INSIDE.events, 0) + HiddenTask(t);
  }

  /** An attribute of 5 is 6 after the sequential Apply, and 5 after every schedule of the parallel one. */
  lemma ThreadsHideNestedChange(threads: nat, s: State)
    requires Reachable(UNSHARED_INSIDE, threads, 5, s) && |s.callers| > 0 && s.callers[0].wait.Returned?
    ensures RootAttribute(s, 5) == 5 && CallAttr(UNSHARED_INSIDE, 5) == 6
  {
    OuterChange();
    ParallelAttribute(UNSHARED_INSIDE, threads, 5, s);
    AttributeAgainstSequential(UNSHARED_INSIDE, threads, 5, s);
    QuietForgetsNothing(UNSHARED_INSIDE, 0);
  }
}
