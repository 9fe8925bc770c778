/** `Command.Apply` without threads: `_SequentialApply`, `PerformTask` and the shared-variable updater. */
module SequentialApply {
  import opened Wrappers
  import opened ApplyProgram

  /** Two maps agree on the first `n` callers. */
  predicate Agree<T(==)>(m: map<nat, T>, m': map<nat, T>, n: nat) {
    forall c: nat :: c < n ==> (c in m <==> c in m') && (c in m ==> m[c] == m'[c])
  }

  /** `_SharedVariablesUpdater`, for one attribute. */
  class SharedVariablesUpdater {
    var last: map<nat, int>

    constructor ()
      ensures last == map[]
    {
      last := map[];
    }

    ghost function Seen(c: nat): int
      reads this
    {
      if c in last then last[c] else 0
    }

    /** Adds to the shared variable what changed since the last update. */
    method Update(c: nat, cls: Command)
      requires cls.shares(c) ==> c in cls.sharedVars
      modifies this, cls`sharedVars
      ensures !cls.shares(c) ==> last == old(last) && cls.sharedVars == old(cls.sharedVars)
      ensures cls.shares(c) ==>
        && last == old(last)[c := cls.attr]
        && cls.sharedVars == old(cls.sharedVars)[c := old(cls.sharedVars[c]) + (cls.attr - old(Seen(c)))]
    {
      if c in cls.sharing {
        var lastValue := if c in last then last[c] else 0;
        var delta := cls.attr - lastValue;
        last := last[c := delta + lastValue];
        cls.sharedVars := cls.sharedVars[c := cls.sharedVars[c] + delta];
      }
    }
  }

  class Command {
    var attr: int
    var nextCaller: nat
    var sharing: set<nat>                  // the callers in shared_vars_list_map
    var sharedVars: map<nat, int>
    var returnValues: map<nat, seq<Value>>

    constructor (attr: int)
      ensures this.attr == attr && Valid()
    {
      this.attr := attr;
      nextCaller := 0;
      sharing, sharedVars, returnValues := {}, map[], map[];
    }

    predicate shares(c: nat)
      reads this
    {
      c in sharing
    }

    ghost predicate Valid()
      reads this
    {
      && (forall c :: c in sharing ==> c < nextCaller && c in sharedVars)
      && (forall c :: c in sharedVars ==> c < nextCaller)
      && (forall c :: c in returnValues ==> c < nextCaller)
    }

    /** Nothing about the callers that already existed changed. */
    twostate predicate KeepsCallers()
      reads this
    {
      && old(nextCaller) <= nextCaller
      && Agree(old(sharedVars), sharedVars, old(nextCaller))
      && Agree(old(returnValues), returnValues, old(nextCaller))
      && forall c: nat :: c < old(nextCaller) ==> (c in old(sharing) <==> c in sharing)
    }

    /** Apply raises exactly when `arg_checker` raises, and otherwise returns the values of the successful
        tasks in order. The attribute is a function of the call and its original value: see `CallAttr`. A
        call that shares it runs from 0; when it raises, the original value is missing, so that the
        attribute is right if and only if it was 0. */
    method Apply(call: Call) returns (r: Result<seq<Value>, ()>)
      requires Valid()
      modifies this
      ensures Valid() && KeepsCallers()
      ensures r.Err? <==> CallRaises(call)
      ensures r.Ok? ==> r.value == CallValues(call)
      ensures attr == CallAttr(call, old(attr))
      ensures call.shared ==>
        (attr == old(attr) + EventsAttr(call.events, Stop(call.events), 0) <==> r.Ok? || old(attr) == 0)
      decreases call, 4
    {
      var original := attr;
      if call.shared { attr := 0; }
      var c := nextCaller;
      nextCaller := nextCaller + 1;
      returnValues := returnValues[c := []];
      if call.shared {
        sharing := sharing + {c};
        sharedVars := sharedVars[c := 0];
      }
      label started:
      var raised := RunEvents(call, c);
      if raised { return Err(()); }
      if call.shared { attr := original + sharedVars[c]; }
      r := Ok(returnValues[c]);
    }

    /** `_SequentialApply` with `fail_on_error` off. At its end the shared variable has the whole change. */
    method RunEvents(call: Call, c: nat) returns (raised: bool)
      requires Valid() && c < nextCaller && c in returnValues && returnValues[c] == []
      requires call.shared <==> c in sharing
      requires call.shared ==> sharedVars[c] == 0 && attr == 0
      modifies this
      ensures Valid() && old(nextCaller) <= nextCaller
      ensures Agree(old(sharedVars), sharedVars, c) && Agree(old(returnValues), returnValues, c)
      ensures forall d: nat :: d < old(nextCaller) ==> (d in old(sharing) <==> d in sharing)
      ensures raised <==> CallRaises(call)
      ensures attr == EventsAttr(call.events, Stop(call.events), old(attr))
      ensures !raised ==> c in returnValues && returnValues[c] == CallValues(call)
      ensures !raised && call.shared ==> c in sharedVars && sharedVars[c] == attr
      decreases call, 3
    {
      var updater := new SharedVariablesUpdater();
      var i := 0;
      while i < |call.events|
        invariant 0 <= i <= Stop(call.events)
        invariant fresh(updater)
        invariant Valid() && old(nextCaller) <= nextCaller
        invariant Agree(old(sharedVars), sharedVars, c) && Agree(old(returnValues), returnValues, c)
        invariant forall d: nat :: d < old(nextCaller) ==> (d in old(sharing) <==> d in sharing)
        invariant c in returnValues
        invariant returnValues[c] == if call.wantResults then PrefixValues(call.events, i) else []
        invariant attr == EventsAttr(call.events, i, old(attr))
        invariant call.shared ==> sharedVars[c] == updater.Seen(c)
      {
        PrefixStep(call.events, i);
        match call.events[i] {
        case CheckerError => return true;
        case IterError(d) => attr := attr + d;
        case Item(accepted, task) =>
          if accepted {
            PerformTask(task, c, call.wantResults, updater);
          }
        }
        i := i + 1;
      }
      updater.Update(c, this);
      raised := false;
    }

    /** `WorkerThread.PerformTask` in the current thread. */
    method PerformTask(task: Task, c: nat, wantResults: bool, updater: SharedVariablesUpdater)
      requires Valid() && c < nextCaller && c in returnValues
      modifies this, updater
      ensures Valid() && old(nextCaller) <= nextCaller
      ensures Agree(old(sharedVars), sharedVars, c) && Agree(old(returnValues), returnValues, c)
      ensures forall d: nat :: d < old(nextCaller) ==> (d in old(sharing) <==> d in sharing)
      ensures c in returnValues
      ensures returnValues[c] == old(returnValues[c]) + if wantResults then TaskValues(task) else []
      ensures attr == TaskAttr(task, old(attr))
      ensures c in sharing ==>
        updater.Seen(c) == attr && sharedVars[c] == old(sharedVars[c]) + (attr - old(updater.Seen(c)))
      decreases task, 2
    {
      var raised := RunBody(task);
      if raised {
        attr := attr + task.onError;
      } else if wantResults {
        returnValues := returnValues[c := returnValues[c] + [task.outcome.value]];
      }
      updater.Update(c, this);
    }

    /** The task's function: its changes, its nested Apply calls on the same object, and its end. */
    method RunBody(task: Task) returns (raised: bool)
      requires Valid()
      modifies this
      ensures Valid() && KeepsCallers()
      ensures raised <==> TaskFails(task)
      ensures attr == ActionsAttr(task.actions, Executed(task), old(attr))
      decreases task, 1
    {
      var k := 0;
      while k < |task.actions|
        invariant 0 <= k <= Halt(task)
        invariant Valid() && KeepsCallers()
        invariant attr == ActionsAttr(task.actions, k, old(attr))
      {
        match task.actions[k] {
        case Bump(d) => attr := attr + d;
        case CallApply(call) =>
          var r := Apply(call);
          if r.Err? {
            assert RaisingAction(task.actions[k]);
            return true;
          }
        }
        k := k + 1;
      }
      raised := task.outcome.Raises?;
    }
  }

  /** A shared attribute of 5 is 0 after an Apply call whose `arg_checker` raises at once. */
  method RaisingCallForgetsAttribute() returns (before: int, after: int)
    ensures before == 5 && after == 0
  {
    var call := Call([CheckerError], true, false);
    var command := new Command(5);
    before := command.attr;
    var r := command.Apply(call);
    assert CallRaises(call) && Stop(call.events) == 0;
    after := command.attr;
  }
}
