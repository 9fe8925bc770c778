/** What the sequential Apply does to an attribute, against the changes that threads publish. */
module ApplyAttribute {
  import opened ApplyProgram

  // ---------------------------------------------------------------------------
  // Changes that only the sequential Apply keeps
  // ---------------------------------------------------------------------------

  /** The changes made by nested calls that do not share the attribute. Without threads they are made to
      the same object; with threads they are made to copies, and nobody sees them. */
  function Hidden(call: Call): int
    decreases call, 3
  {
    HiddenEvents(call.events, Stop(call.events))
  }

  function HiddenEvents(events: seq<Event>, n: nat): int
    requires n <= |events|
    decreases events, 2, n
  {
    if n == 0 then 0 else HiddenEvents(events, n - 1) + HiddenEvent(events[n - 1])
  }

  function HiddenEvent(e: Event): int
    decreases e, 1
  {
    if e.Item? && e.accepted then HiddenTask(e.task) else 0
  }

  function HiddenTask(t: Task): int
    decreases t, 2
  {
    HiddenActions(t.actions, Executed(t))
  }

  function HiddenActions(actions: seq<Action>, k: nat): int
    requires k <= |actions|
    decreases actions, 1, k
  {
    if k == 0 then 0 else HiddenActions(actions, k - 1) + HiddenAction(actions[k - 1])
  }

  function HiddenAction(x: Action): int
    decreases x, 0
  {
    if x.Bump? then 0
    else if x.call.shared then Hidden(x.call)
    else Hidden(x.call) + CallDelta(x.call)
  }

  // ---------------------------------------------------------------------------
  // Changes that the sequential Apply forgets
  // ---------------------------------------------------------------------------

  /** What a call that starts with attribute `a` makes the sequential Apply forget: each call that shares
      the attribute and raises forgets the value the attribute had before it. */
  function Forgotten(call: Call, a: int): int
    decreases call, 3
  {
    ForgottenEvents(call.events, Stop(call.events), if call.shared then 0 else a) +
    if call.shared && CallRaises(call) then a else 0
  }

  function ForgottenEvents(events: seq<Event>, n: nat, a: int): int
    requires n <= |events|
    decreases events, 2, n
  {
    if n == 0 then 0
    else ForgottenEvents(events, n - 1, a) + ForgottenEvent(events[n - 1], EventsAttr(events, n - 1, a))
  }

  function ForgottenEvent(e: Event, a: int): int
    decreases e, 1
  {
    if e.Item? && e.accepted then ForgottenActions(e.task.actions, Executed(e.task), a) else 0
  }

  function ForgottenActions(actions: seq<Action>, k: nat, a: int): int
    requires k <= |actions|
    decreases actions, 1, k
  {
    if k == 0 then 0
    else ForgottenActions(actions, k - 1, a) + ForgottenAction(actions[k - 1], ActionsAttr(actions, k - 1, a))
  }

  function ForgottenAction(x: Action, a: int): int
    decreases x, 0
  {
    if x.Bump? then 0 else Forgotten(x.call, a)
  }

  // ---------------------------------------------------------------------------
  // The sequential attribute as a sum
  // ---------------------------------------------------------------------------

  /** For every program: a sequential call adds to the attribute the changes that threads publish and
      those that they hide, less what it forgets itself. */
  lemma {:induction false} CallSum(call: Call, a: int)
    ensures CallAttr(call, a) == a + CallDelta(call) + Hidden(call) - Forgotten(call, a)
    decreases call, 3
  {
    EventsSum(call.events, Stop(call.events), if call.shared then 0 else a);
  }

  lemma {:induction false} EventsSum(events: seq<Event>, n: nat, a: int)
    requires n <= |events|
    ensures EventsAttr(events, n, a) ==
            a + PrefixDelta(events, n) + HiddenEvents(events, n) - ForgottenEvents(events, n, a)
    decreases events, 2, n
  {
    if n > 0 {
      EventsSum(events, n - 1, a);
      PrefixStep(events, n - 1);
      EventSum(events[n - 1], EventsAttr(events, n - 1, a));
    }
  }

  lemma {:induction false} EventSum(e: Event, a: int)
    ensures e.Item? ==>
      EventAttr(e, a) == a + (if e.accepted then TaskDelta(e.task) else 0) + HiddenEvent(e) - ForgottenEvent(e, a)
    decreases e, 1
  {
    if e.Item? && e.accepted { TaskSum(e.task, a); }
  }

  lemma {:induction false} TaskSum(t: Task, a: int)
    ensures TaskAttr(t, a) == a + TaskDelta(t) + HiddenTask(t) - ForgottenActions(t.actions, Executed(t), a)
    decreases t, 2
  {
    ActionsSum(t.actions, Executed(t), a);
  }

  lemma {:induction false} ActionsSum(actions: seq<Action>, k: nat, a: int)
    requires k <= |actions|
    ensures ActionsAttr(actions, k, a) ==
            a + ActionsDelta(actions, k) + HiddenActions(actions, k) - ForgottenActions(actions, k, a)
    decreases actions, 1, k
  {
    if k > 0 {
      ActionsSum(actions, k - 1, a);
      ActionSum(actions[k - 1], ActionsAttr(actions, k - 1, a));
    }
  }

  lemma {:induction false} ActionSum(x: Action, a: int)
    ensures ActionAttr(x, a) == a + ActionDelta(x) + HiddenAction(x) - ForgottenAction(x, a)
    decreases x, 0
  {
    if x.CallApply? { CallSum(x.call, a); }
  }

  // ---------------------------------------------------------------------------
  // When nothing is forgotten
  // ---------------------------------------------------------------------------

  /** If no nested call that shares the attribute raises, only the call itself can forget anything. */
  lemma {:induction false} QuietForgetsNothing(call: Call, a: int)
    requires CallQuiet(call)
    ensures Forgotten(call, a) == if call.shared && CallRaises(call) then a else 0
    decreases call, 3
  {
    QuietEvents(call.events, Stop(call.events), if call.shared then 0 else a);
  }

  lemma {:induction false} QuietEvents(events: seq<Event>, n: nat, a: int)
    requires n <= |events| && forall i :: 0 <= i < |events| ==> EventQuiet(events[i])
    ensures ForgottenEvents(events, n, a) == 0
    decreases events, 2, n
  {
    if n > 0 {
      QuietEvents(events, n - 1, a);
      QuietEvent(events[n - 1], EventsAttr(events, n - 1, a));
    }
  }

  lemma {:induction false} QuietEvent(e: Event, a: int)
    requires EventQuiet(e)
    ensures ForgottenEvent(e, a) == 0
    decreases e, 1
  {
    if e.Item? && e.accepted {
      assert TaskQuiet(e.task);
      QuietActions(e.task.actions, Executed(e.task), a);
    }
  }

  lemma {:induction false} QuietActions(actions: seq<Action>, k: nat, a: int)
    requires k <= |actions| && forall i :: 0 <= i < |actions| ==> ActionQuiet(actions[i])
    ensures ForgottenActions(actions, k, a) == 0
    decreases actions, 1, k
  {
    if k > 0 {
      QuietActions(actions, k - 1, a);
      QuietAction(actions[k - 1], ActionsAttr(actions, k - 1, a));
    }
  }

  lemma {:induction false} QuietAction(x: Action, a: int)
    requires ActionQuiet(x)
    ensures ForgottenAction(x, a) == 0
    decreases x, 0
  {
    if x.CallApply? { QuietForgetsNothing(x.call, a); }
  }

  // ---------------------------------------------------------------------------
  // When nothing is hidden
  // ---------------------------------------------------------------------------

  /** Every nested call shares the attribute. */
  predicate NestedShare(call: Call)
    decreases call, 3
  {
    forall i :: 0 <= i < |call.events| ==> EventShares(call.events[i])
  }

  predicate EventShares(e: Event)
    decreases e, 2
  {
    e.Item? ==> TaskShares(e.task)
  }

  predicate TaskShares(t: Task)
    decreases t, 1
  {
    forall k :: 0 <= k < |t.actions| ==> ActionShares(t.actions[k])
  }

  predicate ActionShares(x: Action)
    decreases x, 0
  {
    x.CallApply? ==> x.call.shared && NestedShare(x.call)
  }

  /** Then nothing is hidden. */
  lemma {:induction false} NestedShareHidesNothing(call: Call)
    requires NestedShare(call)
    ensures Hidden(call) == 0
    decreases call, 3
  {
    EventsHideNothing(call.events, Stop(call.events));
  }

  lemma {:induction false} EventsHideNothing(events: seq<Event>, n: nat)
    requires n <= |events| && forall i :: 0 <= i < |events| ==> EventShares(events[i])
    ensures HiddenEvents(events, n) == 0
    decreases events, 2, n
  {
    if n > 0 {
      EventsHideNothing(events, n - 1);
      EventHidesNothing(events[n - 1]);
    }
  }

  lemma {:induction false} EventHidesNothing(e: Event)
    requires EventShares(e)
    ensures HiddenEvent(e) == 0
    decreases e, 1
  {
    if e.Item? && e.accepted { TaskHidesNothing(e.task); }
  }

  lemma {:induction false} TaskHidesNothing(t: Task)
    requires TaskShares(t)
    ensures HiddenTask(t) == 0
    decreases t, 2
  {
    ActionsHideNothing(t.actions, Executed(t));
  }

  lemma {:induction false} ActionsHideNothing(actions: seq<Action>, k: nat)
    requires k <= |actions| && forall i :: 0 <= i < |actions| ==> ActionShares(actions[i])
    ensures HiddenActions(actions, k) == 0
    decreases actions, 1, k
  {
    if k > 0 {
      ActionsHideNothing(actions, k - 1);
      ActionHidesNothing(actions[k - 1]);
    }
  }

  lemma {:induction false} ActionHidesNothing(x: Action)
    requires ActionShares(x)
    ensures HiddenAction(x) == 0
    decreases x, 0
  {
    if x.CallApply? { NestedShareHidesNothing(x.call); }
  }
}
