/** What a command asks of `Command.Apply`, as a finite tree.

    A call hands an argument iterator to Apply. Each event of the iterator is an argument, an
    exception raised by `next`, or an argument on which `arg_checker` raises. An accepted argument
    becomes a task: the body of the function applied to it, which changes a shared attribute of its
    command object, makes nested Apply calls, and finally returns a value or raises. */
module ApplyProgram {
  import opened Sums

  type Value = int

  datatype Outcome = Returns(value: Value) | Raises

  datatype Action = Bump(delta: int) | CallApply(call: Call)

  /** `onError` is what the exception handler adds to the shared attribute. */
  datatype Task = Task(actions: seq<Action>, outcome: Outcome, onError: int)

  datatype Event =
    | Item(accepted: bool, task: Task)
    | IterError(delta: int)
    | CheckerError

  /** `shared` says whether the attribute is named in `shared_attrs`. */
  datatype Call = Call(events: seq<Event>, shared: bool, wantResults: bool)

  // ---------------------------------------------------------------------------
  // Which events are reached, and which tasks fail
  // ---------------------------------------------------------------------------

  /** The number of events consumed from position `from` on: up to the first argument on which
      `arg_checker` raises, or all of them. */
  function StopFrom(events: seq<Event>, from: nat): (n: nat)
    requires from <= |events|
    ensures from <= n <= |events|
    ensures forall i :: from <= i < n ==> !events[i].CheckerError?
    ensures n < |events| ==> events[n].CheckerError?
    decreases |events| - from
  {
    if from == |events| || events[from].CheckerError? then from else StopFrom(events, from + 1)
  }

  function Stop(events: seq<Event>): nat { StopFrom(events, 0) }

  /** Apply raises its producer's exception exactly when `arg_checker` raised. */
  predicate CallRaises(call: Call) { Stop(call.events) < |call.events| }

  predicate IsTask(events: seq<Event>, i: nat) {
    i < |events| && events[i].Item? && events[i].accepted
  }

  /** The indices of the arguments accepted among the first `n` events. */
  function Accepted(events: seq<Event>, n: nat): set<nat> {
    set i: nat | i < n && IsTask(events, i)
  }

  predicate RaisingAction(a: Action) { a.CallApply? && CallRaises(a.call) }

  /** The first action at or after `k` that raises, or the end of the body. */
  function HaltFrom(actions: seq<Action>, k: nat): (n: nat)
    requires k <= |actions|
    ensures k <= n <= |actions|
    ensures forall i :: k <= i < n ==> !RaisingAction(actions[i])
    ensures n < |actions| ==> RaisingAction(actions[n])
    decreases |actions| - k
  {
    if k == |actions| || RaisingAction(actions[k]) then k else HaltFrom(actions, k + 1)
  }

  function Halt(t: Task): nat { HaltFrom(t.actions, 0) }

  /** The actions a body performs: a nested call that raises is the last one. */
  function Executed(t: Task): (n: nat)
    ensures n <= |t.actions|
  {
    if Halt(t) < |t.actions| then Halt(t) + 1 else Halt(t)
  }

  predicate TaskFails(t: Task) { Halt(t) < |t.actions| || t.outcome.Raises? }

  // ---------------------------------------------------------------------------
  // What the call means: the results, and the change of the shared attribute
  // ---------------------------------------------------------------------------

  /** Everything a task changes, also inside a nested call that shares the attribute and raises. */
  function TaskDelta(t: Task): int
    decreases t, 2
  {
    ActionsDelta(t.actions, Executed(t)) + if TaskFails(t) then t.onError else 0
  }

  /** The change made by the first `k` actions of a body. */
  function ActionsDelta(actions: seq<Action>, k: nat): int
    requires k <= |actions|
    decreases actions, 1, k
  {
    if k == 0 then 0 else ActionsDelta(actions, k - 1) + ActionDelta(actions[k - 1])
  }

  function ActionDelta(a: Action): int
    decreases a, 0
  {
    match a
    case Bump(d) => d
    case CallApply(call) => if call.shared then CallDelta(call) else 0
  }

  function CallDelta(call: Call): int
    decreases call, 3
  {
    EventsDelta(call.events, Stop(call.events), Accepted(call.events, Stop(call.events)))
  }

  /** The change made by the first `n` events when the tasks in `credited` are done. */
  function EventsDelta(events: seq<Event>, n: nat, credited: set<nat>): int
    requires n <= |events|
    decreases events, 2, n
  {
    if n == 0 then 0 else
      EventsDelta(events, n - 1, credited) + EventDelta(events[n - 1], n - 1 in credited)
  }

  function EventDelta(e: Event, credited: bool): int
    decreases e, 1
  {
    match e
    case Item(accepted, task) => if accepted && credited then TaskDelta(task) else 0
    case IterError(d) => d
    case CheckerError => 0
  }

  function TaskValues(t: Task): seq<Value> {
    if TaskFails(t) then [] else [t.outcome.value]
  }

  function EventValues(e: Event, recorded: bool): seq<Value> {
    if e.Item? && e.accepted && recorded then TaskValues(e.task) else []
  }

  /** The values returned by the tasks in `recorded` among the first `n` events, in order. */
  function EventsValues(events: seq<Event>, n: nat, recorded: set<nat>): seq<Value>
    requires n <= |events|
    decreases n
  {
    if n == 0 then [] else
      EventsValues(events, n - 1, recorded) + EventValues(events[n - 1], n - 1 in recorded)
  }

  /** The list `_SequentialApply` returns. */
  function CallValues(call: Call): seq<Value> {
    if call.wantResults
    then EventsValues(call.events, Stop(call.events), Accepted(call.events, Stop(call.events)))
    else []
  }

  // ---------------------------------------------------------------------------
  // What happens to the attribute without threads
  // ---------------------------------------------------------------------------

  /** The attribute after a sequential Apply, if it was `a` before. A call that shares it runs from 0, and
      adds the original value when it returns, but not when it raises. */
  function CallAttr(call: Call, a: int): int
    decreases call, 3
  {
    if !call.shared then EventsAttr(call.events, Stop(call.events), a)
    else
      var end := EventsAttr(call.events, Stop(call.events), 0);
      if CallRaises(call) then end else a + end
  }

  function EventsAttr(events: seq<Event>, n: nat, a: int): int
    requires n <= |events|
    decreases events, 2, n
  {
    if n == 0 then a else EventAttr(events[n - 1], EventsAttr(events, n - 1, a))
  }

  function EventAttr(e: Event, a: int): int
    decreases e, 1
  {
    match e
    case Item(accepted, task) => if accepted then TaskAttr(task, a) else a
    case IterError(d) => a + d
    case CheckerError => a
  }

  function TaskAttr(t: Task, a: int): int
    decreases t, 2
  {
    ActionsAttr(t.actions, Executed(t), a) + if TaskFails(t) then t.onError else 0
  }

  function ActionsAttr(actions: seq<Action>, k: nat, a: int): int
    requires k <= |actions|
    decreases actions, 1, k
  {
    if k == 0 then a else ActionAttr(actions[k - 1], ActionsAttr(actions, k - 1, a))
  }

  function ActionAttr(x: Action, a: int): int
    decreases x, 0
  {
    match x
    case Bump(d) => a + d
    case CallApply(call) => CallAttr(call, a)
  }

  // ---------------------------------------------------------------------------
  // Adding one task to the finished ones
  // ---------------------------------------------------------------------------

  lemma {:induction false} EventsDeltaCredit(events: seq<Event>, n: nat, credited: set<nat>, i: nat)
    requires n <= |events| && i !in credited && IsTask(events, i)
    ensures EventsDelta(events, n, credited + {i}) ==
            EventsDelta(events, n, credited) + if i < n then TaskDelta(events[i].task) else 0
    decreases n
  {
    if n > 0 { EventsDeltaCredit(events, n - 1, credited, i); }
  }

  /** The values of event `i`, if there is one. */
  function ValuesAt(events: seq<Event>): nat -> seq<Value> {
    (i: nat) => if i < |events| then EventValues(events[i], true) else []
  }

  function ValueBag(events: seq<Event>, n: nat, recorded: set<nat>): multiset<Value>
    requires n <= |events|
  {
    Bag(n, ValuesAt(events), recorded)
  }

  lemma {:induction false} ValueBagOfValues(events: seq<Event>, n: nat, recorded: set<nat>)
    requires n <= |events|
    ensures ValueBag(events, n, recorded) == multiset(EventsValues(events, n, recorded))
    decreases n
  {
    if n > 0 {
      ValueBagOfValues(events, n - 1, recorded);
      assert EventValues(events[n - 1], false) == [];
    }
  }

  lemma ValueBagRecord(events: seq<Event>, n: nat, recorded: set<nat>, i: nat)
    requires i < n <= |events| && i !in recorded && IsTask(events, i)
    ensures ValueBag(events, n, recorded + {i}) ==
            ValueBag(events, n, recorded) + multiset(TaskValues(events[i].task))
  {
    BagChoose(n, ValuesAt(events), recorded, i);
  }

  lemma {:induction false} EventsValuesAgree(events: seq<Event>, n: nat, a: set<nat>, b: set<nat>)
    requires n <= |events|
    requires forall i: nat :: i < n && IsTask(events, i) && !TaskFails(events[i].task) ==> (i in a <==> i in b)
    ensures EventsValues(events, n, a) == EventsValues(events, n, b)
    decreases n
  {
    if n > 0 { EventsValuesAgree(events, n - 1, a, b); }
  }

  lemma AcceptedGrows(events: seq<Event>, n: nat)
    requires n < |events|
    ensures Accepted(events, n + 1) == Accepted(events, n) + if IsTask(events, n) then {n} else {}
    ensures n !in Accepted(events, n)
    ensures |Accepted(events, n + 1)| == |Accepted(events, n)| + if IsTask(events, n) then 1 else 0
  {
  }

  // ---------------------------------------------------------------------------
  // One event at a time
  // ---------------------------------------------------------------------------

  function PrefixDelta(events: seq<Event>, n: nat): int
    requires n <= |events|
  {
    EventsDelta(events, n, Accepted(events, n))
  }

  function PrefixValues(events: seq<Event>, n: nat): seq<Value>
    requires n <= |events|
  {
    EventsValues(events, n, Accepted(events, n))
  }

  lemma PrefixStep(events: seq<Event>, n: nat)
    requires n < |events|
    ensures PrefixDelta(events, n + 1) == PrefixDelta(events, n) +
      match events[n] {
        case Item(accepted, task) => if accepted then TaskDelta(task) else 0
        case IterError(d) => d
        case CheckerError => 0
      }
    ensures PrefixValues(events, n + 1) ==
      PrefixValues(events, n) + if IsTask(events, n) then TaskValues(events[n].task) else []
  {
    AcceptedGrows(events, n);
    var was, now := Accepted(events, n), Accepted(events, n + 1);
    EventsValuesAgree(events, n, now, was);
    assert EventsDelta(events, n + 1, now) == EventsDelta(events, n, now) + EventDelta(events[n], n in now);
    if IsTask(events, n) {
      assert now == was + {n};
      EventsDeltaCredit(events, n, was, n);
    } else {
      assert now == was;
    }
  }

  /** These are the arguments among the first `n` events whose tasks succeed, in order. */
  ghost predicate Successes(events: seq<Event>, n: nat, at: seq<nat>) {
    && (forall i: nat :: i in at <==> i < n && IsTask(events, i) && !TaskFails(events[i].task))
    && (forall k, l :: 0 <= k < l < |at| ==> at[k] < at[l])
  }

  /** And these are the values they return. */
  predicate ReturnedAt(events: seq<Event>, at: seq<nat>, values: seq<Value>) {
    && |values| == |at|
    && forall k :: 0 <= k < |at| ==> IsTask(events, at[k]) && Returns(values[k]) == events[at[k]].task.outcome
  }

  /** The list that is returned: the values of the accepted arguments whose tasks succeed, before the first
      one on which the checker raises, in the order of the arguments. */
  lemma CallValuesExact(call: Call) returns (at: seq<nat>)
    ensures if call.wantResults then Successes(call.events, Stop(call.events), at) else at == []
    ensures ReturnedAt(call.events, at, CallValues(call))
  {
    at := [];
    if call.wantResults { at := ValuesExact(call.events, Stop(call.events)); }
  }

  lemma {:induction false} ValuesExact(events: seq<Event>, n: nat) returns (at: seq<nat>)
    requires n <= |events|
    ensures Successes(events, n, at) && ReturnedAt(events, at, PrefixValues(events, n))
  {
    at := [];
    if n > 0 {
      at := ValuesExact(events, n - 1);
      PrefixStep(events, n - 1);
      if IsTask(events, n - 1) && !TaskFails(events[n - 1].task) {
        OneMoreSuccess(events, n - 1, at);
        OneMoreValue(events, n - 1, at, PrefixValues(events, n - 1));
        at := at + [n - 1];
      } else {
        assert PrefixValues(events, n) == PrefixValues(events, n - 1);
      }
    }
  }

  lemma OneMoreSuccess(events: seq<Event>, n: nat, at: seq<nat>)
    requires Successes(events, n, at) && IsTask(events, n) && !TaskFails(events[n].task)
    ensures Successes(events, n + 1, at + [n])
  {
    assert forall k :: 0 <= k < |at| ==> at[k] in at;
  }

  lemma OneMoreValue(events: seq<Event>, n: nat, at: seq<nat>, values: seq<Value>)
    requires ReturnedAt(events, at, values) && IsTask(events, n) && !TaskFails(events[n].task)
    ensures ReturnedAt(events, at + [n], values + TaskValues(events[n].task))
  {
  }

  // ---------------------------------------------------------------------------
  // One action at a time
  // ---------------------------------------------------------------------------

  predicate RunsThrough(actions: seq<Action>) { forall i :: 0 <= i < |actions| ==> !RaisingAction(actions[i]) }

  /** A task without actions only fails or not, and is handled if it does. */
  lemma EmptyTask(outcome: Outcome, onError: int, a: int)
    ensures
      var t := Task([], outcome, onError);
      && TaskDelta(t) == (if outcome.Raises? then onError else 0)
      && TaskAttr(t, a) == a + (if outcome.Raises? then onError else 0)
  {
  }

  /** One more action behind a body that runs through: the change it makes is added, the nested call it
      makes runs on what the attribute is then, and if that call raises, the task fails and is handled. */
  lemma TaskAppend(actions: seq<Action>, x: Action, outcome: Outcome, onError: int, a: int)
    requires RunsThrough(actions)
    ensures
      var t, longer := Task(actions, Returns(0), onError), Task(actions + [x], outcome, onError);
      var handled := if outcome.Raises? || (x.CallApply? && CallRaises(x.call)) then onError else 0;
      && (x.Bump? ==> TaskDelta(longer) == TaskDelta(t) + x.delta + handled)
      && (x.Bump? ==> TaskAttr(longer, a) == TaskAttr(t, a) + x.delta + handled)
      && (x.CallApply? ==> TaskDelta(longer) == TaskDelta(t) + (if x.call.shared then CallDelta(x.call) else 0) + handled)
      && (x.CallApply? ==> TaskAttr(longer, a) == CallAttr(x.call, TaskAttr(t, a)) + handled)
  {
    var longer := actions + [x];
    assert Halt(Task(actions, Returns(0), onError)) == |actions|;
    var n := Halt(Task(longer, outcome, onError));
    assert forall i :: 0 <= i < |actions| ==> longer[i] == actions[i];
    assert longer[|actions|] == x;
    assert Executed(Task(longer, outcome, onError)) == |actions| + 1;
    assert ActionsDelta(longer, |actions| + 1) == ActionsDelta(longer, |actions|) + ActionDelta(x);
    assert ActionsAttr(longer, |actions| + 1, a) == ActionAttr(x, ActionsAttr(longer, |actions|, a));
    SameFront(longer, actions, |actions|, a);
  }

  /** What stands behind a nested call that raises is not performed. */
  lemma TaskStops(actions: seq<Action>, x: Action, rest: seq<Action>, outcome: Outcome, onError: int, a: int)
    requires RunsThrough(actions) && RaisingAction(x)
    ensures
      var t, longer := Task(actions + [x], Raises, onError), Task(actions + [x] + rest, outcome, onError);
      TaskFails(longer) && TaskDelta(longer) == TaskDelta(t) && TaskAttr(longer, a) == TaskAttr(t, a)
  {
    var short, longer := actions + [x], actions + [x] + rest;
    var n, m := Halt(Task(short, Raises, onError)), Halt(Task(longer, outcome, onError));
    assert short[|actions|] == longer[|actions|] == x;
    assert forall i :: 0 <= i < |actions| ==> short[i] == longer[i] == actions[i];
    assert n == m == |actions|;
    SameFront(longer, short, |actions| + 1, a);
  }

  lemma {:induction false} SameFront(longer: seq<Action>, actions: seq<Action>, k: nat, a: int)
    requires k <= |actions| && actions <= longer
    ensures ActionsDelta(longer, k) == ActionsDelta(actions, k)
    ensures ActionsAttr(longer, k, a) == ActionsAttr(actions, k, a)
  {
    if k > 0 { SameFront(longer, actions, k - 1, a); }
  }

  // ---------------------------------------------------------------------------
  // No nested call that shares the attribute raises
  // ---------------------------------------------------------------------------

  predicate CallQuiet(call: Call)
    decreases call, 2
  {
    forall i :: 0 <= i < |call.events| ==> EventQuiet(call.events[i])
  }

  predicate EventQuiet(e: Event)
    decreases e, 1
  {
    e.Item? ==> TaskQuiet(e.task)
  }

  predicate TaskQuiet(t: Task)
    decreases t, 1
  {
    forall k :: 0 <= k < |t.actions| ==> ActionQuiet(t.actions[k])
  }

  predicate ActionQuiet(a: Action)
    decreases a, 0
  {
    a.CallApply? ==> CallQuiet(a.call) && (a.call.shared ==> !CallRaises(a.call))
  }
}
