/** Shared attributes of a parallel Apply. The shared variable of a completed call is the sum of all
    changes, less exactly what nested calls that share the attribute and raise made vanish. */
module ApplyShared {
  import opened Wrappers
  import opened ApplyProgram
  import opened ApplyMachine
  import opened ApplyInvariant
  import opened ApplyPreserve
  import opened ApplyWorkers
  import opened ApplyDeadlock

  // ---------------------------------------------------------------------------
  // Where every change of the attribute is
  // ---------------------------------------------------------------------------

  /** The shared variable holds what was published, the handled iterator errors and the credited tasks,
      less what was lost. */
  ghost predicate CallerShared(k: Caller) {
    && k.next <= |k.call.events|
    && k.credited <= Accepted(k.call.events, k.next)
    && (k.call.shared ==>
          && k.base == 0
          && (!k.prod.PublishError? ==> k.prodAttr == k.prodLast)
          && k.sharedVar + k.lost + (k.prodAttr - k.prodLast) == EventsDelta(k.call.events, k.next, k.credited))
  }

  function ChildShares(s: State, child: nat): bool { child < |s.callers| && s.callers[child].call.shared }

  /** The unpublished change of worker `w` for caller `c` is what the task in progress did so far, less
      what is gone of it. */
  ghost predicate GapOk(s: State, w: Worker, c: nat) {
    var unpublished := Attr(w, c) - Last(w, c);
    if Holds(w).None? || Holds(w).value.caller != c || w.act.Count? then unpublished == 0
    else
      && ValidUnit(s, Holds(w).value)
      && var t := TaskOf(s, Holds(w).value);
         match w.act
         case Body(_, k) => k <= |t.actions| && unpublished + w.gone == ActionsDelta(t.actions, k)
         case InApply(_, k, child, saved) =>
           && k < |t.actions|
           && saved - Last(w, c) + w.gone == ActionsDelta(t.actions, k)
           && Attr(w, c) == (if ChildShares(s, child) then 0 else saved)
         case Record(_) => unpublished + w.gone == ActionsDelta(t.actions, |t.actions|)
         case Handle(_) => unpublished + w.gone == ActionsDelta(t.actions, Executed(t))
         case Publish(_) => unpublished + w.gone == TaskDelta(t)
         case _ => true
  }

  /** A worker refers to the first `n` callers only. */
  ghost predicate KnownCallers(w: Worker, n: nat) {
    && (forall c :: c in w.cls ==> c < n)
    && (forall c :: c in w.last ==> c < n)
    && (Holds(w).Some? ==> Holds(w).value.caller < n)
    && (w.act.InApply? ==> w.act.child < n)
  }

  ghost predicate WorkerShared(s: State, l: nat, j: nat)
    requires IsWorker(s, l, j)
  {
    && KnownCallers(s.pools[l][j], |s.callers|)
    && forall c: nat :: c < |s.callers| && s.callers[c].level == l && s.callers[c].call.shared ==>
         GapOk(s, s.pools[l][j], c)
  }

  ghost predicate AllCallerShared(s: State) {
    forall c :: 0 <= c < |s.callers| ==> CallerShared(s.callers[c])
  }

  ghost predicate AllWorkerShared(s: State) {
    forall l, j :: 0 <= l < |s.pools| && 0 <= j < |s.pools[l]| ==> WorkerShared(s, l, j)
  }

  ghost predicate SharedOk(s: State) { AllCallerShared(s) && AllWorkerShared(s) }

  // ---------------------------------------------------------------------------
  // Frames
  // ---------------------------------------------------------------------------

  predicate SameShared(k: Caller, k': Caller) {
    && k'.call == k.call && k'.next == k.next && k'.credited == k.credited && k'.base == k.base
    && k'.sharedVar == k.sharedVar && k'.lost == k.lost && k'.prodAttr == k.prodAttr && k'.prodLast == k.prodLast
    && (k'.prod.PublishError? <==> k.prod.PublishError?)
  }

  lemma KeepWorkerShared(s: State, s': State, l: nat, j: nat)
    requires IsWorker(s, l, j) && IsWorker(s', l, j) && s'.pools[l][j] == s.pools[l][j]
    requires WorkerShared(s, l, j) && SameCalls(s, s')
    ensures WorkerShared(s', l, j)
  {
    var w := s.pools[l][j];
    forall c: nat | c < |s'.callers| && s'.callers[c].level == l && s'.callers[c].call.shared
      ensures GapOk(s', w, c)
    {
      if c < |s.callers| { assert GapOk(s, w, c); }
    }
  }

  lemma KeepAllWorkers(s: State, s': State)
    requires AllWorkerShared(s) && s'.pools == s.pools && SameCalls(s, s')
    ensures AllWorkerShared(s')
  {
    forall l, j | 0 <= l < |s'.pools| && 0 <= j < |s'.pools[l]| ensures WorkerShared(s', l, j) {
      assert WorkerShared(s, l, j);
      KeepWorkerShared(s, s', l, j);
    }
  }

  /** Only worker (l, j) changes. */
  lemma OneWorker(s: State, l: nat, j: nat, w: Worker)
    requires AllWorkerShared(s) && IsWorker(s, l, j)
    requires WorkerShared(SetWorker(s, l, j, w), l, j)
    ensures AllWorkerShared(SetWorker(s, l, j, w))
  {
    var s' := SetWorker(s, l, j, w);
    forall m, x | 0 <= m < |s'.pools| && 0 <= x < |s'.pools[m]| ensures WorkerShared(s', m, x) {
      assert WorkerShared(s, m, x);
      if m != l || x != j { KeepWorkerShared(s, s', m, x); }
    }
  }

  /** The worker's attributes change for caller `d` only. */
  lemma OtherGaps(s: State, l: nat, j: nat, w: Worker, d: nat)
    requires IsWorker(s, l, j) && WorkerShared(s, l, j) && KnownCallers(w, |s.callers|) && d < |s.callers|
    requires forall c :: c != d ==> Attr(w, c) == Attr(s.pools[l][j], c) && Last(w, c) == Last(s.pools[l][j], c)
    requires Holds(s.pools[l][j]).Some? ==> Holds(s.pools[l][j]).value.caller == d
    requires Holds(w).Some? ==> Holds(w).value.caller == d
    requires s.callers[d].level == l && s.callers[d].call.shared ==> GapOk(SetWorker(s, l, j, w), w, d)
    ensures WorkerShared(SetWorker(s, l, j, w), l, j)
  {
    var s' := SetWorker(s, l, j, w);
    forall c: nat | c < |s'.callers| && s'.callers[c].level == l && s'.callers[c].call.shared
      ensures GapOk(s', w, c)
    {
      assert GapOk(s, s.pools[l][j], c);
    }
  }

  lemma SameCallers(s: State, s': State, c: nat)
    requires AllCallerShared(s) && |s.callers| == |s'.callers| && SameCalls(s, s')
    requires forall d :: 0 <= d < |s.callers| && d != c ==> SameShared(s.callers[d], s'.callers[d])
    requires c < |s.callers| ==> CallerShared(s'.callers[c])
    ensures AllCallerShared(s')
  {
    forall d | 0 <= d < |s'.callers| ensures CallerShared(s'.callers[d]) {
      assert CallerShared(s.callers[d]);
    }
  }

  // ---------------------------------------------------------------------------
  // The producer and the waiter
  // ---------------------------------------------------------------------------

  lemma {:induction false} DeltaOfMissing(events: seq<Event>, n: nat, credited: set<nat>)
    requires n < |events| && n !in credited
    ensures EventsDelta(events, n + 1, credited) ==
            EventsDelta(events, n, credited) + if events[n].IterError? then events[n].delta else 0
  {
  }

  lemma FetchShared(k: Caller)
    requires CallerShared(k) && k.prod.Fetch?
    ensures CallerShared(Fetched(k))
  {
    if k.next < |k.call.events| && !k.call.events[k.next].CheckerError? {
      assert k.next !in k.credited;
      DeltaOfMissing(k.call.events, k.next, k.credited);
      assert Accepted(k.call.events, k.next) <= Accepted(k.call.events, k.next + 1);
    }
  }

  lemma ProducerLocal(k: Caller, k': Caller)
    requires CallerShared(k)
    requires (k.prod.PublishError? && k' == Published(k)) || SameShared(k, k')
    ensures CallerShared(k')
  {
  }

  lemma ProducerShape(s: State, c: nat)
    requires ProducerEnabled(s, c)
    ensures
      var k, s' := s.callers[c], ProducerNext(s, c);
      && s'.pools == s.pools && |s'.callers| == |s.callers| && SameCalls(s, s')
      && (forall d :: 0 <= d < |s.callers| && d != c ==> SameShared(s.callers[d], s'.callers[d]))
      && (if k.prod.Fetch? then s'.callers[c] == Fetched(k)
          else if k.prod.PublishError? then s'.callers[c] == Published(k)
          else SameShared(k, s'.callers[c]))
  {
  }

  lemma ProducerShared(s: State, c: nat)
    requires SharedOk(s) && ProducerEnabled(s, c)
    ensures SharedOk(ProducerNext(s, c))
  {
    var k, s' := s.callers[c], ProducerNext(s, c);
    ProducerShape(s, c);
    assert CallerShared(k);
    if k.prod.Fetch? { FetchShared(k); } else { ProducerLocal(k, s'.callers[c]); }
    SameCallers(s, s', c);
    KeepAllWorkers(s, s');
  }

  lemma FirstPoolParts(s: State, c: nat)
    requires LevelsOk(s) && WaiterEnabled(s, c) && s.callers[c].wait.FirstPool?
    ensures
      var s' := SetUpNext(s, c);
      && s'.callers == s.callers[c := s.callers[c].(wait := StartProducer)]
      && (s'.pools == s.pools || s'.pools == s.pools + [Pool(s.threads)])
  {
    if s.queues == [] { assert s.pools + [Pool(s.threads)] == [Pool(s.threads)]; }
  }

  lemma SetUpParts(s: State, c: nat)
    requires LevelsOk(s) && WaiterEnabled(s, c) && SettingUp(s.callers[c].wait)
    ensures
      var s' := SetUpNext(s, c);
      && |s'.callers| == |s.callers| && SameCalls(s, s')
      && (forall d :: 0 <= d < |s.callers| ==> SameShared(s.callers[d], s'.callers[d]))
      && (s'.pools == s.pools || s'.pools == s.pools + [Pool(s.threads)])
  {
    if s.callers[c].wait.FirstPool? { FirstPoolParts(s, c); }
  }

  lemma FreshWorkers(s: State, s': State)
    requires AllWorkerShared(s) && SameCalls(s, s')
    requires s'.pools == s.pools || s'.pools == s.pools + [Pool(s.threads)]
    ensures AllWorkerShared(s')
  {
    forall l, j | 0 <= l < |s'.pools| && 0 <= j < |s'.pools[l]| ensures WorkerShared(s', l, j) {
      if IsWorker(s, l, j) {
        assert WorkerShared(s, l, j);
        KeepWorkerShared(s, s', l, j);
      }
    }
  }

  lemma SetUpShared(s: State, c: nat)
    requires LevelsOk(s) && SharedOk(s) && WaiterEnabled(s, c) && SettingUp(s.callers[c].wait)
    ensures SharedOk(SetUpNext(s, c))
  {
    var s' := SetUpNext(s, c);
    SetUpParts(s, c);
    SameCallers(s, s', |s.callers|);
    FreshWorkers(s, s');
  }

  /** A completed call that shares the attribute has the whole change in the shared variable, or lost it. */
  lemma CompletedDelta(s: State, c: nat)
    requires Inv(s) && AllCallerShared(s) && c < |s.callers| && s.callers[c].completed && s.callers[c].call.shared
    ensures s.callers[c].sharedVar + s.callers[c].lost == CallDelta(s.callers[c].call)
  {
    var k := s.callers[c];
    assert CallerOk(k) && UnitsOk(s, c) && CallerShared(k);
    CompletedDone(k, Queue(s, k.level), PoolAt(s, k.level), c);
  }

  lemma ResumeGap(s: State, l: nat, j: nat, k: Caller, d: nat)
    requires IsWorker(s, l, j) && s.pools[l][j].act.InApply? && GapOk(s, s.pools[l][j], d)
    requires s.pools[l][j].act.u.caller == d < |s.callers| && s.callers[d].call.shared
    requires WorkerOk(s, l, j) && s.pools[l][j].act.child < |s.callers| && k == s.callers[s.pools[l][j].act.child]
    requires k.failed == CallRaises(k.call) && (k.call.shared ==> k.sharedVar + k.lost == CallDelta(k.call))
    ensures GapOk(s, Resume(s.pools[l][j], k), d)
  {
    var InApply(u, i, child, saved) := s.pools[l][j].act;
    var t := TaskOf(s, u);
    assert ActionsDelta(t.actions, i + 1) == ActionsDelta(t.actions, i) + ActionDelta(t.actions[i]);
    if k.failed { assert RaisingAction(t.actions[i]) && Halt(t) == i; }
  }

  lemma ReturnGap(s: State, c: nat, l: nat, j: nat)
    requires Inv(s) && SharedOk(s) && c < |s.callers| && s.callers[c].completed
    requires IsWorker(s, l, j) && s.pools[l][j].act.InApply? && s.pools[l][j].act.child == c
    ensures
      var d := s.pools[l][j].act.u.caller;
      d < |s.callers| &&
      (s.callers[d].level == l && s.callers[d].call.shared ==> GapOk(s, Resume(s.pools[l][j], s.callers[c]), d))
  {
    var k, w := s.callers[c], s.pools[l][j];
    var d := w.act.u.caller;
    assert WorkerOk(s, l, j) && WorkerShared(s, l, j) && CallerOk(k);
    if k.call.shared { CompletedDelta(s, c); }
    if s.callers[d].call.shared {
      assert GapOk(s, w, d);
      ResumeGap(s, l, j, k, d);
    }
  }

  lemma GapFrame(s: State, s': State, w: Worker, d: nat)
    requires GapOk(s, w, d) && SameCalls(s, s') && KnownCallers(w, |s.callers|)
    ensures GapOk(s', w, d)
  {
  }

  lemma ResumeShared(s: State, l: nat, j: nat, k: Caller)
    requires AllWorkerShared(s) && IsWorker(s, l, j) && s.pools[l][j].act.InApply?
    requires var d := s.pools[l][j].act.u.caller;
      d < |s.callers| &&
      (s.callers[d].level == l && s.callers[d].call.shared ==> GapOk(s, Resume(s.pools[l][j], k), d))
    ensures AllWorkerShared(SetWorker(s, l, j, Resume(s.pools[l][j], k)))
  {
    var w := Resume(s.pools[l][j], k);
    var d := s.pools[l][j].act.u.caller;
    assert WorkerShared(s, l, j);
    if s.callers[d].level == l && s.callers[d].call.shared { GapFrame(s, SetWorker(s, l, j, w), w, d); }
    OtherGaps(s, l, j, w, d);
    OneWorker(s, l, j, w);
  }

  /** A caller moves on without touching what it shares. */
  lemma CallerOnly(s: State, c: nat, k': Caller)
    requires SharedOk(s) && c < |s.callers| && SameShared(s.callers[c], k') && k'.level == s.callers[c].level
    ensures SharedOk(SetCaller(s, c, k'))
  {
    SameCallers(s, SetCaller(s, c, k'), |s.callers|);
    KeepAllWorkers(s, SetCaller(s, c, k'));
  }

  lemma ReturnedGap(s: State, c: nat, l: nat, j: nat)
    requires Inv(s) && SharedOk(s) && c < |s.callers| && s.callers[c].completed
    requires IsWorker(s, l, j) && s.pools[l][j].act.InApply? && s.pools[l][j].act.child == c
    ensures
      var d, t := s.pools[l][j].act.u.caller, SetCaller(s, c, s.callers[c].(wait := Returned));
      d < |t.callers| &&
      (t.callers[d].level == l && t.callers[d].call.shared ==> GapOk(t, Resume(s.pools[l][j], s.callers[c]), d))
  {
    var k, d := s.callers[c], s.pools[l][j].act.u.caller;
    ReturnGap(s, c, l, j);
    if s.callers[d].level == l && s.callers[d].call.shared {
      assert WorkerShared(s, l, j);
      GapFrame(s, SetCaller(s, c, k.(wait := Returned)), Resume(s.pools[l][j], k), d);
    }
  }

  lemma ReturnShared(s: State, c: nat, l: nat, j: nat)
    requires Inv(s) && SharedOk(s) && WaiterEnabled(s, c)
    requires var k := s.callers[c]; k.wait.Check? && k.completed && k.parent == ByWorker(l, j)
    ensures SharedOk(WaiterNext(s, c))
  {
    CallerOnly(s, c, s.callers[c].(wait := Returned));
    ReturnedGap(s, c, l, j);
    ResumeShared(SetCaller(s, c, s.callers[c].(wait := Returned)), l, j, s.callers[c]);
  }

  lemma WaiterShared(s: State, c: nat)
    requires Inv(s) && SharedOk(s) && WaiterEnabled(s, c)
    ensures SharedOk(WaiterNext(s, c))
  {
    var k := s.callers[c];
    if SettingUp(k.wait) { SetUpShared(s, c); }
    else if k.wait.StartProducer? {
      assert !k.prod.PublishError?;
      CallerOnly(s, c, k.(wait := Check, prod := Fetch));
    }
    else if !k.completed { CallerOnly(s, c, k.(wait := Waiting)); }
    else if k.parent.ByWorker? { ReturnShared(s, c, k.parent.level, k.parent.index); }
    else { CallerOnly(s, c, k.(wait := Returned)); }
  }

  // ---------------------------------------------------------------------------
  // The workers
  // ---------------------------------------------------------------------------

  /** A worker step that changes the attribute of caller `d` only, and no caller. */
  lemma WorkerOnly(s: State, l: nat, j: nat, w: Worker, d: nat)
    requires SharedOk(s) && IsWorker(s, l, j) && d < |s.callers| && KnownCallers(w, |s.callers|)
    requires forall c :: c != d ==> Attr(w, c) == Attr(s.pools[l][j], c) && Last(w, c) == Last(s.pools[l][j], c)
    requires Holds(s.pools[l][j]).Some? ==> Holds(s.pools[l][j]).value.caller == d
    requires Holds(w).Some? ==> Holds(w).value.caller == d
    requires s.callers[d].level == l && s.callers[d].call.shared ==> GapOk(s, w, d)
    ensures SharedOk(SetWorker(s, l, j, w))
  {
    assert WorkerShared(s, l, j);
    if s.callers[d].level == l && s.callers[d].call.shared { GapFrame(s, SetWorker(s, l, j, w), w, d); }
    OtherGaps(s, l, j, w, d);
    OneWorker(s, l, j, w);
  }

  /** The first action, the end of the body and the handler, seen from the caller of the task. */
  lemma BodyGap(s: State, l: nat, j: nat)
    requires WorkerEnabled(s, l, j) && WorkerOk(s, l, j) && WorkerShared(s, l, j)
    requires var a := s.pools[l][j].act;
      || a.Handle?
      || (a.Body? && (a.k == |TaskOf(s, a.u).actions| || TaskOf(s, a.u).actions[a.k].Bump?))
    requires var d := Holds(s.pools[l][j]).value.caller; s.callers[d].level == l && s.callers[d].call.shared
    ensures GapOk(s, WorkerNext(s, l, j).pools[l][j], Holds(s.pools[l][j]).value.caller)
  {
    var w := s.pools[l][j];
    var u := Holds(w).value;
    assert GapOk(s, w, u.caller);
    if w.act.Body? && w.act.k < |TaskOf(s, u).actions| {
      var actions := TaskOf(s, u).actions;
      assert ActionsDelta(actions, w.act.k + 1) == ActionsDelta(actions, w.act.k) + ActionDelta(actions[w.act.k]);
    }
  }

  lemma BodyShared(s: State, l: nat, j: nat)
    requires WorkersOk(s) && SharedOk(s) && WorkerEnabled(s, l, j)
    requires var a := s.pools[l][j].act;
      || a.Handle?
      || (a.Body? && (a.k == |TaskOf(s, a.u).actions| || TaskOf(s, a.u).actions[a.k].Bump?))
    ensures SharedOk(WorkerNext(s, l, j))
  {
    var d := Holds(s.pools[l][j]).value.caller;
    assert WorkerOk(s, l, j) && WorkerShared(s, l, j);
    if s.callers[d].level == l && s.callers[d].call.shared { BodyGap(s, l, j); }
    WorkerOnly(s, l, j, WorkerNext(s, l, j).pools[l][j], d);
  }

  /** Steps that change no attribute of a caller and no worker's. */
  lemma LocalParts(s: State, l: nat, j: nat)
    requires WorkerEnabled(s, l, j)
    requires var a := s.pools[l][j].act;
      a.CompareDone? || a.NotifyDone? || a.Count? || (a.Idle? && s.queues[l][0].ZeroTasks?)
    ensures
      var w, s' := s.pools[l][j], WorkerNext(s, l, j);
      && |s'.callers| == |s.callers| && SameCalls(s, s')
      && (forall d :: 0 <= d < |s.callers| ==> SameShared(s.callers[d], s'.callers[d]))
      && |s'.pools| == |s.pools| && (forall m :: 0 <= m < |s.pools| ==> |s'.pools[m]| == |s.pools[m]|)
      && (forall m: nat, x: nat :: IsWorker(s, m, x) && (m != l || x != j) ==> s'.pools[m][x] == s.pools[m][x])
      && s'.pools[l][j].cls == w.cls && s'.pools[l][j].last == w.last
      && (w.act.CompareDone? || w.act.NotifyDone? || w.act.Count? || w.act.Idle?)
      && (s'.pools[l][j].act.CompareDone? || s'.pools[l][j].act.NotifyDone? || s'.pools[l][j].act.Idle?)
  {
  }

  lemma LocalShared(s: State, l: nat, j: nat)
    requires SharedOk(s) && WorkerEnabled(s, l, j)
    requires var a := s.pools[l][j].act;
      a.CompareDone? || a.NotifyDone? || a.Count? || (a.Idle? && s.queues[l][0].ZeroTasks?)
    ensures SharedOk(WorkerNext(s, l, j))
  {
    var w, s' := s.pools[l][j], WorkerNext(s, l, j);
    LocalParts(s, l, j);
    SameCallers(s, s', |s.callers|);
    var t := s.(callers := s'.callers);
    KeepAllWorkers(s, t);
    forall m, x | 0 <= m < |s'.pools| && 0 <= x < |s'.pools[m]| ensures WorkerShared(s', m, x) {
      assert WorkerShared(t, m, x);
      if m == l && x == j {
        forall c: nat | c < |s'.callers| && s'.callers[c].level == l && s'.callers[c].call.shared
          ensures GapOk(s', s'.pools[l][j], c)
        {
          assert GapOk(t, w, c);
        }
      } else {
        KeepWorkerShared(t, s', m, x);
      }
    }
  }

  lemma TakeShared(s: State, l: nat, j: nat)
    requires SharedOk(s) && WorkerEnabled(s, l, j) && s.pools[l][j].act.Idle? && s.queues[l][0].Work?
    ensures SharedOk(WorkerNext(s, l, j))
  {
    var w, s' := s.pools[l][j], WorkerNext(s, l, j);
    var u := s.queues[l][0].u;
    SameCallers(s, s', |s.callers|);
    var t := s.(callers := s'.callers, queues := s'.queues);
    KeepAllWorkers(s, t);
    assert WorkerShared(t, l, j) && CallerShared(t.callers[u.caller]);
    var w' := s'.pools[l][j];
    if t.callers[u.caller].level == l && t.callers[u.caller].call.shared { assert GapOk(t, w, u.caller); }
    assert ActionsDelta(TaskOf(s, u).actions, 0) == 0;
    WorkerOnly(t, l, j, w', u.caller);
  }

  lemma RecordCallers(s: State, l: nat, j: nat)
    requires SharedOk(s) && WorkerEnabled(s, l, j) && s.pools[l][j].act.Record?
    ensures
      var t := s.(callers := WorkerNext(s, l, j).callers);
      SharedOk(t) && SameCalls(s, t) && IsWorker(t, l, j) && ValidUnit(t, s.pools[l][j].act.u)
  {
    var t := s.(callers := WorkerNext(s, l, j).callers);
    SameCallers(s, t, |s.callers|);
    KeepAllWorkers(s, t);
  }

  lemma RecordedGap(t: State, l: nat, j: nat, u: Unit)
    requires AllWorkerShared(t) && IsWorker(t, l, j) && t.pools[l][j].act == Record(u)
    requires ValidUnit(t, u) && t.callers[u.caller].level == l && t.callers[u.caller].call.shared
    requires Halt(TaskOf(t, u)) == |TaskOf(t, u).actions| && TaskOf(t, u).outcome.Returns?
    ensures GapOk(t, t.pools[l][j].(act := Publish(u)), u.caller)
  {
    assert WorkerShared(t, l, j);
    assert GapOk(t, t.pools[l][j], u.caller);
  }

  lemma RecordShared(s: State, l: nat, j: nat)
    requires WorkersOk(s) && SharedOk(s) && WorkerEnabled(s, l, j) && s.pools[l][j].act.Record?
    ensures SharedOk(WorkerNext(s, l, j))
  {
    var s' := WorkerNext(s, l, j);
    var u := s.pools[l][j].act.u;
    var t := s.(callers := s'.callers);
    RecordCallers(s, l, j);
    assert WorkerOk(s, l, j) && WorkerShared(t, l, j);
    if t.callers[u.caller].call.shared && t.callers[u.caller].level == l { RecordedGap(t, l, j, u); }
    WorkerOnly(t, l, j, s'.pools[l][j], u.caller);
  }

  lemma PublishCaller(k: Caller, i: nat, gap: int, gone: int)
    requires CallerShared(k) && i !in k.credited && i in Accepted(k.call.events, k.next)
    requires k.call.shared ==> gap + gone == TaskDelta(k.call.events[i].task)
    ensures CallerShared(k.(credited := k.credited + {i},
                            sharedVar := if k.call.shared then k.sharedVar + gap else k.sharedVar,
                            lost := if k.call.shared then k.lost + gone else k.lost))
  {
    if k.call.shared { EventsDeltaCredit(k.call.events, k.next, k.credited, i); }
  }

  lemma PublishCallers(s: State, l: nat, j: nat)
    requires Inv(s) && SharedOk(s) && WorkerEnabled(s, l, j) && s.pools[l][j].act.Publish?
    ensures AllCallerShared(WorkerNext(s, l, j))
  {
    var w, s' := s.pools[l][j], WorkerNext(s, l, j);
    var u := w.act.u;
    var k := s.callers[u.caller];
    assert WorkerOk(s, l, j) && WorkerShared(s, l, j) && CallerShared(k);
    HeldIsAccepted(s, l, j);
    if k.call.shared { assert GapOk(s, w, u.caller); }
    PublishCaller(k, u.item, Attr(w, u.caller) - Last(w, u.caller), w.gone);
    SameCallers(s, s', u.caller);
  }

  lemma PublishShared(s: State, l: nat, j: nat)
    requires Inv(s) && SharedOk(s) && WorkerEnabled(s, l, j) && s.pools[l][j].act.Publish?
    ensures SharedOk(WorkerNext(s, l, j))
  {
    var s' := WorkerNext(s, l, j);
    PublishCallers(s, l, j);
    var t := s.(callers := s'.callers);
    KeepAllWorkers(s, t);
    assert WorkerShared(t, l, j);
    WorkerOnly(t, l, j, s'.pools[l][j], s.pools[l][j].act.u.caller);
  }

  lemma HeldIsAccepted(s: State, l: nat, j: nat)
    requires Inv(s) && IsWorker(s, l, j) && Holds(s.pools[l][j]).Some?
    ensures
      var u := Holds(s.pools[l][j]).value;
      u.caller < |s.callers| && u.item in Accepted(s.callers[u.caller].call.events, s.callers[u.caller].next)
  {
    assert WorkerOk(s, l, j);
    var u := Holds(s.pools[l][j]).value;
    assert UnitsOk(s, u.caller);
    assert UnitOk(s.callers[u.caller], Queue(s, l), PoolAt(s, l), u);
    PositiveHeld(s.pools[l], j, u);
  }

  lemma CallShared(s: State, l: nat, j: nat)
    requires SharedOk(s) && WorkerEnabled(s, l, j) && s.pools[l][j].act.Body?
    requires
      var Body(u, k) := s.pools[l][j].act;
      k < |TaskOf(s, u).actions| && TaskOf(s, u).actions[k].CallApply?
    ensures SharedOk(WorkerNext(s, l, j))
  {
    var w, s' := s.pools[l][j], WorkerNext(s, l, j);
    var Body(u, k) := w.act;
    var t := s.(callers := s'.callers);
    forall d | 0 <= d < |t.callers| ensures CallerShared(t.callers[d]) {
      if d < |s.callers| { assert CallerShared(s.callers[d]); }
      else { assert Accepted(t.callers[d].call.events, 0) == {}; }
    }
    KeepAllWorkers(s, t);
    assert WorkerShared(t, l, j);
    if t.callers[u.caller].level == l && t.callers[u.caller].call.shared { assert GapOk(t, w, u.caller); }
    WorkerOnly(t, l, j, s'.pools[l][j], u.caller);
  }

  lemma WorkerKeepsShared(s: State, l: nat, j: nat)
    requires Inv(s) && SharedOk(s) && WorkerEnabled(s, l, j)
    ensures SharedOk(WorkerNext(s, l, j))
  {
    var a := s.pools[l][j].act;
    if a.Idle? && s.queues[l][0].Work? { TakeShared(s, l, j); }
    else if a.Body? && a.k < |TaskOf(s, a.u).actions| && TaskOf(s, a.u).actions[a.k].CallApply? { CallShared(s, l, j); }
    else if a.Body? || a.Handle? { BodyShared(s, l, j); }
    else if a.Record? { RecordShared(s, l, j); }
    else if a.Publish? { PublishShared(s, l, j); }
    else { LocalShared(s, l, j); }
  }

  // ---------------------------------------------------------------------------
  // Whole runs
  // ---------------------------------------------------------------------------

  lemma StepShared(s: State, step: Step)
    requires Inv(s) && SharedOk(s) && Enabled(s, step)
    ensures Inv(Next(s, step)) && SharedOk(Next(s, step))
  {
    StepKeeps(s, step);
    match step
    case WaiterStep(c) => WaiterShared(s, c);
    case ProducerStep(c) => ProducerShared(s, c);
    case WorkerStep(l, j) => WorkerKeepsShared(s, l, j);
  }

  lemma {:induction false} RunShared(s: State, steps: seq<Step>, s': State)
    requires Inv(s) && SharedOk(s) && Run(s, steps, s')
    ensures Inv(s') && SharedOk(s')
    decreases |steps|
  {
    if steps != [] {
      StepShared(s, steps[0]);
      RunShared(Next(s, steps[0]), steps[1..], s');
    }
  }

  lemma InitShared(call: Call, threads: nat, attr: int)
    ensures SharedOk(Init(call, threads, attr))
  {
    assert Accepted(call.events, 0) == {};
  }

  /** For every program, number of threads and schedule: when a call that shares the attribute is
      completed, its shared variable is the sum of all changes made by its tasks, its exception handlers
      and the nested calls that share it, raising ones included, less what was lost; so it is exact if and
      only if nothing, on balance, was lost. */
  lemma SharedVariableExact(call: Call, threads: nat, attr: int, s: State, c: nat)
    requires Reachable(call, threads, attr, s)
    requires c < |s.callers| && s.callers[c].completed && s.callers[c].call.shared
    ensures s.callers[c].sharedVar == CallDelta(s.callers[c].call) - s.callers[c].lost
    ensures s.callers[c].sharedVar == CallDelta(s.callers[c].call) <==> s.callers[c].lost == 0
  {
    var steps :| Run(Init(call, threads, attr), steps, s);
    InitInv(call, threads, attr);
    InitShared(call, threads, attr);
    RunShared(Init(call, threads, attr), steps, s);
    CompletedDelta(s, c);
  }

  // ---------------------------------------------------------------------------
  // When nothing is lost
  // ---------------------------------------------------------------------------

  /** Nothing is lost at all, and no program is running in which something could be. */
  ghost predicate NothingLost(s: State) {
    && (forall c :: 0 <= c < |s.callers| ==> CallQuiet(s.callers[c].call) && s.callers[c].lost == 0)
    && (forall l, j :: 0 <= l < |s.pools| && 0 <= j < |s.pools[l]| ==> s.pools[l][j].gone == 0)
  }

  lemma NestedIsQuiet(s: State, u: Unit, k: nat)
    requires NothingLost(s) && ValidUnit(s, u) && k < |TaskOf(s, u).actions|
    ensures ActionQuiet(TaskOf(s, u).actions[k])
  {
    assert CallQuiet(s.callers[u.caller].call);
    assert EventQuiet(s.callers[u.caller].call.events[u.item]);
    assert TaskQuiet(TaskOf(s, u));
  }

  lemma ReturnLosesNothing(s: State, c: nat)
    requires Inv(s) && NothingLost(s) && WaiterEnabled(s, c)
    requires s.callers[c].wait.Check? && s.callers[c].completed
    ensures NothingLost(ReturnNext(s, c))
  {
    var k := s.callers[c];
    if k.parent.ByWorker? {
      var w := s.pools[k.parent.level][k.parent.index];
      assert WorkerOk(s, k.parent.level, k.parent.index) && CallerOk(k);
      NestedIsQuiet(s, w.act.u, w.act.k);
    }
  }

  lemma SetUpLosesNothing(s: State, c: nat)
    requires LevelsOk(s) && NothingLost(s) && WaiterEnabled(s, c) && SettingUp(s.callers[c].wait)
    ensures NothingLost(SetUpNext(s, c))
  {
    SetUpParts(s, c);
  }

  lemma WaiterLosesNothing(s: State, c: nat)
    requires Inv(s) && NothingLost(s) && WaiterEnabled(s, c)
    ensures NothingLost(WaiterNext(s, c))
  {
    var k := s.callers[c];
    if SettingUp(k.wait) { SetUpLosesNothing(s, c); }
    else if k.wait.Check? && k.completed { ReturnLosesNothing(s, c); }
  }

  lemma WorkerLosesNothing(s: State, l: nat, j: nat)
    requires NothingLost(s) && WorkerEnabled(s, l, j)
    ensures NothingLost(WorkerNext(s, l, j))
  {
    var a := s.pools[l][j].act;
    if a.Body? && a.k < |TaskOf(s, a.u).actions| { NestedIsQuiet(s, a.u, a.k); }
  }

  lemma ProducerLosesNothing(s: State, c: nat)
    requires NothingLost(s) && ProducerEnabled(s, c)
    ensures NothingLost(ProducerNext(s, c))
  {
  }

  lemma {:induction false} RunLosesNothing(s: State, steps: seq<Step>, s': State)
    requires Inv(s) && NothingLost(s) && Run(s, steps, s')
    ensures NothingLost(s')
    decreases |steps|
  {
    if steps != [] {
      StepKeeps(s, steps[0]);
      match steps[0] {
        case WaiterStep(c) => WaiterLosesNothing(s, c);
        case ProducerStep(c) => ProducerLosesNothing(s, c);
        case WorkerStep(l, j) => WorkerLosesNothing(s, l, j);
      }
      RunLosesNothing(Next(s, steps[0]), steps[1..], s');
    }
  }

  /** Nothing is lost in any schedule of a program without nested calls that share the attribute and
      raise. */
  lemma QuietLosesNothing(call: Call, threads: nat, attr: int, s: State, c: nat)
    requires CallQuiet(call) && Reachable(call, threads, attr, s) && c < |s.callers|
    ensures s.callers[c].lost == 0
  {
    var steps :| Run(Init(call, threads, attr), steps, s);
    InitInv(call, threads, attr);
    RunLosesNothing(Init(call, threads, attr), steps, s);
  }
}
