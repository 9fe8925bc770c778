/** The workers' steps keep the invariant. */
module ApplyWorkers {
  import opened Wrappers
  import opened ApplyProgram
  import opened ApplyMachine
  import opened ApplyInvariant
  import opened ApplyPreserve

  // ---------------------------------------------------------------------------
  // A worker that goes on with what it holds
  // ---------------------------------------------------------------------------

  lemma HoldingUpdate(pool: seq<Worker>, j: nat, w: Worker)
    requires j < |pool|
    ensures Holding(pool[j := w]) == Holding(pool)[j := Holds(w)]
  {
  }

  lemma HeldUpdate(pool: seq<Worker>, j: nat, w: Worker, u: Unit)
    requires j < |pool|
    ensures Held(pool[j := w], u) + B2N(Holds(pool[j]) == Some(u)) == Held(pool, u) + B2N(Holds(w) == Some(u))
  {
    HoldingUpdate(pool, j, w);
  }

  /** Only the activity of one worker changes, and it keeps the argument it holds. */
  ghost predicate SameHold(w: Worker, w': Worker) {
    Holds(w') == Holds(w)
  }

  lemma KeepPlacesWorker(s: State, l: nat, j: nat, w: Worker)
    requires PlacesOk(s) && IsWorker(s, l, j) && SameHold(s.pools[l][j], w)
    ensures PlacesOk(SetWorker(s, l, j, w))
  {
    var s' := SetWorker(s, l, j, w);
    forall d | 0 <= d < |s'.callers| ensures UnitsOk(s', d) {
      var k := s.callers[d];
      assert UnitsOk(s, d);
      forall i: nat ensures Held(PoolAt(s', k.level), Unit(d, i)) == Held(PoolAt(s, k.level), Unit(d, i)) {
        HeldUpdate(s.pools[l], j, w, Unit(d, i));
      }
      KeepUnits(k, k, Queue(s, k.level), Queue(s', k.level), PoolAt(s, k.level), PoolAt(s', k.level), d);
    }
  }

  /** Worker `w` owes caller `c` a notification that `w'` no longer owes. */
  ghost predicate DropsNotify(w: Worker, w': Worker, k: Caller, c: nat) {
    NotifyDue(k) && AboutToNotify(w, c, k.finished) && !AboutToNotify(w', c, k.finished)
  }

  lemma KeepNotifiesWorker(s: State, l: nat, j: nat, w: Worker)
    requires NotifiesOk(s) && IsWorker(s, l, j)
    requires forall c: nat :: c < |s.callers| && s.callers[c].level == l ==> !DropsNotify(s.pools[l][j], w, s.callers[c], c)
    ensures NotifiesOk(SetWorker(s, l, j, w))
  {
    var s' := SetWorker(s, l, j, w);
    forall d | 0 <= d < |s'.callers| ensures NotifyOk(s', d) {
      var k := s.callers[d];
      assert NotifyOk(s, d);
      if NotifyDue(k) {
        var i :| 0 <= i < |PoolAt(s, k.level)| && AboutToNotify(PoolAt(s, k.level)[i], d, k.finished);
        assert !DropsNotify(s.pools[l][j], w, k, d) || k.level != l;
        assert AboutToNotify(PoolAt(s', k.level)[i], d, k.finished);
      }
    }
  }

  /** A nested call in progress keeps its parent. */
  ghost predicate KeepsChild(s: State, w: Worker, w': Worker) {
    w.act.InApply? && w.act.child < |s.callers| && !s.callers[w.act.child].wait.Returned? ==>
      w'.act.InApply? && w'.act.child == w.act.child
  }

  lemma KeepStagesWorker(s: State, l: nat, j: nat, w: Worker)
    requires LevelsOk(s) && StagesOk(s) && IsWorker(s, l, j) && KeepsChild(s, s.pools[l][j], w)
    ensures LevelsOk(SetWorker(s, l, j, w)) && StagesOk(SetWorker(s, l, j, w))
  {
    var s' := SetWorker(s, l, j, w);
    forall d | 0 <= d < |s'.callers| ensures LevelOk(s', s'.callers[d]) && ParentOk(s', d) {
      assert LevelOk(s, s.callers[d]) && ParentOk(s, d);
    }
  }

  lemma KeepWorkersWorker(s: State, l: nat, j: nat, w: Worker)
    requires WorkersOk(s) && IsWorker(s, l, j) && WorkerOk(SetWorker(s, l, j, w), l, j)
    ensures WorkersOk(SetWorker(s, l, j, w))
  {
    var s' := SetWorker(s, l, j, w);
    forall m, i | 0 <= m < |s'.pools| && 0 <= i < |s'.pools[m]| ensures WorkerOk(s', m, i) {
      assert WorkerOk(s, m, i);
      if m != l || i != j { KeepWorker(s, s', m, i); }
    }
  }

  lemma WorkerMove(s: State, l: nat, j: nat, w: Worker)
    requires Inv(s) && IsWorker(s, l, j) && SameHold(s.pools[l][j], w)
    requires WorkerOk(SetWorker(s, l, j, w), l, j)
    requires KeepsChild(s, s.pools[l][j], w)
    requires forall c: nat :: c < |s.callers| && s.callers[c].level == l ==> !DropsNotify(s.pools[l][j], w, s.callers[c], c)
    ensures Inv(SetWorker(s, l, j, w))
  {
    var s' := SetWorker(s, l, j, w);
    KeepPlacesWorker(s, l, j, w);
    KeepNotifiesWorker(s, l, j, w);
    KeepStagesWorker(s, l, j, w);
    KeepWorkersWorker(s, l, j, w);
    KeepEntries(s, s');
  }

  lemma WorkBodyEnd(s: State, l: nat, j: nat)
    requires Inv(s) && WorkerEnabled(s, l, j) && s.pools[l][j].act.Body?
    requires s.pools[l][j].act.k == |TaskOf(s, s.pools[l][j].act.u).actions|
    ensures Inv(WorkerNext(s, l, j))
  {
    assert WorkerOk(s, l, j);
    WorkerMove(s, l, j, WorkerNext(s, l, j).pools[l][j]);
  }

  lemma WorkBump(s: State, l: nat, j: nat)
    requires Inv(s) && WorkerEnabled(s, l, j) && s.pools[l][j].act.Body?
    requires
      var Body(u, k) := s.pools[l][j].act;
      k < |TaskOf(s, u).actions| && TaskOf(s, u).actions[k].Bump?
    ensures Inv(WorkerNext(s, l, j))
  {
    assert WorkerOk(s, l, j);
    WorkerMove(s, l, j, WorkerNext(s, l, j).pools[l][j]);
  }

  lemma WorkHandle(s: State, l: nat, j: nat)
    requires Inv(s) && WorkerEnabled(s, l, j) && s.pools[l][j].act.Handle?
    ensures Inv(WorkerNext(s, l, j))
  {
    assert WorkerOk(s, l, j);
    WorkerMove(s, l, j, WorkerNext(s, l, j).pools[l][j]);
  }

  lemma WorkCompare(s: State, l: nat, j: nat)
    requires Inv(s) && WorkerEnabled(s, l, j) && s.pools[l][j].act.CompareDone?
    ensures Inv(WorkerNext(s, l, j))
  {
    assert WorkerOk(s, l, j);
    var c := s.pools[l][j].act.caller;
    assert CallerOk(s.callers[c]);
    SubsetSize(s.callers[c].done, Accepted(s.callers[c].call.events, s.callers[c].next));
    WorkerMove(s, l, j, WorkerNext(s, l, j).pools[l][j]);
  }

  lemma WorkRecord(s: State, l: nat, j: nat)
    requires Inv(s) && WorkerEnabled(s, l, j) && s.pools[l][j].act.Record?
    ensures Inv(WorkerNext(s, l, j))
  {
    var u := s.pools[l][j].act.u;
    var k' := WorkerNext(s, l, j).callers[u.caller];
    RecordCaller(s, u.caller, k');
    RecordMove(SetCaller(s, u.caller, k'), l, j);
  }

  lemma RecordMove(s: State, l: nat, j: nat)
    requires Inv(s) && IsWorker(s, l, j) && s.pools[l][j].act.Record?
    ensures Inv(SetWorker(s, l, j, s.pools[l][j].(act := Publish(s.pools[l][j].act.u))))
  {
    assert WorkerOk(s, l, j);
    WorkerMove(s, l, j, s.pools[l][j].(act := Publish(s.pools[l][j].act.u)));
  }

  lemma RecordCaller(s: State, c: nat, k': Caller)
    requires Inv(s) && c < |s.callers|
    requires k' == s.callers[c].(results := k'.results, recorded := k'.recorded)
    ensures Inv(SetCaller(s, c, k'))
  {
    var k := s.callers[c];
    assert CallerOk(k) && UnitsOk(s, c);
    KeepUnits(k, k', Queue(s, k.level), Queue(s, k.level), PoolAt(s, k.level), PoolAt(s, k.level), c);
    CallerMove(s, c, k');
  }

  // ---------------------------------------------------------------------------
  // An argument that changes place
  // ---------------------------------------------------------------------------

  lemma OnlyHolder(s: State, l: nat, j: nat, i: nat, u: Unit)
    requires IsWorker(s, l, j) && IsWorker(s, l, i) && i != j
    requires Holds(s.pools[l][j]) == Some(u) && Holds(s.pools[l][i]) == Some(u)
    ensures Held(s.pools[l], u) >= 2
  {
    var pool := s.pools[l];
    HeldUpdate(pool, j, FRESH_WORKER, u);
    assert Holding(pool[j := FRESH_WORKER])[i] == Some(u);
  }

  lemma PositiveHeld(pool: seq<Worker>, j: nat, u: Unit)
    requires j < |pool| && Holds(pool[j]) == Some(u)
    ensures Held(pool, u) >= 1
  {
    assert Holding(pool)[j] == Some(u);
  }

  /** The new state when worker (l, j) becomes `w`, caller `c` becomes `k` and queue `l` becomes `q`. */
  function Moved(s: State, l: nat, j: nat, w: Worker, c: nat, k: Caller, q: seq<Entry>): State
    requires IsWorker(s, l, j) && c < |s.callers| && l < |s.queues|
  {
    SetWorker(SetCaller(s.(queues := s.queues[l := q]), c, k), l, j, w)
  }

  /** Worker (l, j) moves argument `i` of caller `c` on. */
  ghost predicate Moving(s: State, l: nat, j: nat, w: Worker, c: nat, k': Caller, q: seq<Entry>, i: nat) {
    && IsWorker(s, l, j) && c < |s.callers| && l < |s.queues| && s.callers[c].level == l
    && CallerOk(k') && Steady(s.callers[c], k') && k'.wait == s.callers[c].wait
    && (Holds(w).Some? ==> Holds(w).value == Unit(c, i))
    && (Holds(s.pools[l][j]).Some? ==> Holds(s.pools[l][j]).value == Unit(c, i))
    && UnitsAt(k', q, s.pools[l][j := w], c)
    && (forall u: Unit :: u.caller != c ==> Queued(q, u) == Queued(s.queues[l], u))
  }

  lemma MovePlaces(s: State, l: nat, j: nat, w: Worker, c: nat, k': Caller, q: seq<Entry>, i: nat)
    requires PlacesOk(s) && Moving(s, l, j, w, c, k', q, i)
    ensures PlacesOk(Moved(s, l, j, w, c, k', q))
  {
    var s' := Moved(s, l, j, w, c, k', q);
    forall d | 0 <= d < |s'.callers| ensures UnitsOk(s', d) {
      if d != c {
        var k := s.callers[d];
        assert UnitsOk(s, d);
        forall x: nat ensures Held(PoolAt(s', k.level), Unit(d, x)) == Held(PoolAt(s, k.level), Unit(d, x)) {
          HeldUpdate(s.pools[l], j, w, Unit(d, x));
        }
        KeepUnits(k, k, Queue(s, k.level), Queue(s', k.level), PoolAt(s, k.level), PoolAt(s', k.level), d);
      } else {
        assert Queue(s', l) == q && PoolAt(s', l) == s.pools[l][j := w];
      }
    }
  }

  lemma MoveStages(s: State, l: nat, j: nat, w: Worker, c: nat, k': Caller, q: seq<Entry>, i: nat)
    requires LevelsOk(s) && StagesOk(s) && Moving(s, l, j, w, c, k', q, i)
    requires !s.pools[l][j].act.InApply?
    ensures
      var s' := Moved(s, l, j, w, c, k', q);
      LevelsOk(s') && StagesOk(s')
  {
    var s' := Moved(s, l, j, w, c, k', q);
    forall d | 0 <= d < |s'.callers| ensures LevelOk(s', s'.callers[d]) && ParentOk(s', d) {
      assert LevelOk(s, s.callers[d]) && ParentOk(s, d);
    }
  }

  lemma MoveNotifies(s: State, l: nat, j: nat, w: Worker, c: nat, k': Caller, q: seq<Entry>, i: nat)
    requires NotifiesOk(s) && Moving(s, l, j, w, c, k', q, i)
    requires !s.pools[l][j].act.NotifyDone? && !s.pools[l][j].act.CompareDone?
    requires NotifyDue(k') ==> AboutToNotify(w, c, k'.finished) || (NotifyDue(s.callers[c]) && k'.finished == s.callers[c].finished)
    ensures NotifiesOk(Moved(s, l, j, w, c, k', q))
  {
    var s' := Moved(s, l, j, w, c, k', q);
    forall d | 0 <= d < |s'.callers| ensures NotifyOk(s', d) {
      var k := s'.callers[d];
      assert NotifyOk(s, d);
      if NotifyDue(k) {
        if d == c && AboutToNotify(w, c, k'.finished) {
          assert AboutToNotify(PoolAt(s', k.level)[j], d, k.finished);
        } else {
          var x :| 0 <= x < |PoolAt(s, k.level)| && AboutToNotify(PoolAt(s, k.level)[x], d, k.finished);
          assert AboutToNotify(PoolAt(s', k.level)[x], d, k.finished);
        }
      }
    }
  }

  lemma MoveWorkers(s: State, l: nat, j: nat, w: Worker, c: nat, k': Caller, q: seq<Entry>, i: nat)
    requires WorkersOk(s) && PlacesOk(s) && Moving(s, l, j, w, c, k', q, i)
    requires s.callers[c].credited <= k'.credited <= s.callers[c].credited + {i}
    requires k'.credited == s.callers[c].credited || Holds(s.pools[l][j]) == Some(Unit(c, i))
    requires WorkerOk(Moved(s, l, j, w, c, k', q), l, j)
    ensures WorkersOk(Moved(s, l, j, w, c, k', q))
  {
    var s' := Moved(s, l, j, w, c, k', q);
    assert UnitsOk(s, c);
    assert UnitOk(s.callers[c], Queue(s, l), PoolAt(s, l), Unit(c, i));
    forall m, x | 0 <= m < |s'.pools| && 0 <= x < |s'.pools[m]| ensures WorkerOk(s', m, x) {
      assert WorkerOk(s, m, x);
      if m != l || x != j {
        if Holds(s.pools[m][x]) == Some(Unit(c, i)) && k'.credited != s.callers[c].credited {
          OnlyHolder(s, l, j, x, Unit(c, i));
          assert false;
        }
        KeepWorker(s, s', m, x);
      }
    }
  }

  lemma MoveEntries(s: State, l: nat, j: nat, w: Worker, c: nat, k': Caller, q: seq<Entry>)
    requires EntriesOk(s) && IsWorker(s, l, j) && c < |s.callers| && l < |s.queues| && Steady(s.callers[c], k')
    requires forall x :: 0 <= x < |q| ==> q[x] in s.queues[l]
    ensures EntriesOk(Moved(s, l, j, w, c, k', q))
  {
    var s' := Moved(s, l, j, w, c, k', q);
    forall m, x | 0 <= m < |s'.queues| && 0 <= x < |s'.queues[m]| ensures EntryOk(s', m, s'.queues[m][x]) {
      if m == l {
        var y :| 0 <= y < |s.queues[l]| && s.queues[l][y] == q[x];
        assert EntryOk(s, l, s.queues[l][y]);
      } else {
        assert EntryOk(s, m, s.queues[m][x]);
      }
    }
  }

  lemma UnitMove(s: State, l: nat, j: nat, w: Worker, c: nat, k': Caller, q: seq<Entry>, i: nat)
    requires Inv(s) && Moving(s, l, j, w, c, k', q, i)
    requires var a := s.pools[l][j].act; !a.InApply? && !a.NotifyDone? && !a.CompareDone?
    requires NotifyDue(k') ==> AboutToNotify(w, c, k'.finished) || (NotifyDue(s.callers[c]) && k'.finished == s.callers[c].finished)
    requires s.callers[c].credited <= k'.credited <= s.callers[c].credited + {i}
    requires k'.credited == s.callers[c].credited || Holds(s.pools[l][j]) == Some(Unit(c, i))
    requires WorkerOk(Moved(s, l, j, w, c, k', q), l, j)
    requires forall x :: 0 <= x < |q| ==> q[x] in s.queues[l]
    ensures Inv(Moved(s, l, j, w, c, k', q))
  {
    MovePlaces(s, l, j, w, c, k', q, i);
    MoveStages(s, l, j, w, c, k', q, i);
    MoveNotifies(s, l, j, w, c, k', q, i);
    MoveWorkers(s, l, j, w, c, k', q, i);
    MoveEntries(s, l, j, w, c, k', q);
    var s' := Moved(s, l, j, w, c, k', q);
    forall d | 0 <= d < |s'.callers| ensures CallerOk(s'.callers[d]) { assert CallerOk(s.callers[d]); }
  }

  // ---------------------------------------------------------------------------
  // From the queue to a worker
  // ---------------------------------------------------------------------------

  lemma TakenOk(k: Caller, q: seq<Entry>, pool: seq<Worker>, j: nat, w: Worker, c: nat, i: nat)
    requires CallerOk(k) && UnitsAt(k, q, pool, c) && j < |pool| && Holds(pool[j]).None?
    requires q != [] && q[0] == Work(Unit(c, i)) && Holds(w) == Some(Unit(c, i))
    ensures CallerOk(k.(taken := k.taken + [i])) && UnitsAt(k.(taken := k.taken + [i]), q[1..], pool[j := w], c)
    ensures i !in k.done && i !in k.taken && i !in k.credited && i in Accepted(k.call.events, k.next)
  {
    assert q == [q[0]] + q[1..];
    assert UnitOk(k, q, pool, Unit(c, i));
    forall x: nat ensures UnitOk(k.(taken := k.taken + [i]), q[1..], pool[j := w], Unit(c, x)) {
      assert UnitOk(k, q, pool, Unit(c, x));
      HeldUpdate(pool, j, w, Unit(c, x));
    }
  }

  lemma WorkTake(s: State, l: nat, j: nat)
    requires Inv(s) && WorkerEnabled(s, l, j) && s.pools[l][j].act.Idle? && s.queues[l][0].Work?
    ensures Inv(WorkerNext(s, l, j))
  {
    var q := s.queues[l];
    var u := q[0].u;
    assert EntryOk(s, l, q[0]);
    var k := s.callers[u.caller];
    assert CallerOk(k) && UnitsOk(s, u.caller);
    var s' := WorkerNext(s, l, j);
    var w := s'.pools[l][j];
    TakenOk(k, q, s.pools[l], j, w, u.caller, u.item);
    assert q == [q[0]] + q[1..];
    UnitMove(s, l, j, w, u.caller, k.(taken := k.taken + [u.item]), q[1..], u.item);
  }

  lemma SkipPlaces(s: State, l: nat)
    requires PlacesOk(s) && l < |s.queues| && s.queues[l] != [] && s.queues[l][0].ZeroTasks?
    ensures PlacesOk(s.(queues := s.queues[l := s.queues[l][1..]]))
  {
    var s' := s.(queues := s.queues[l := s.queues[l][1..]]);
    var q := s.queues[l];
    assert q == [q[0]] + q[1..];
    forall d | 0 <= d < |s'.callers| ensures UnitsOk(s', d) {
      var k := s.callers[d];
      assert UnitsOk(s, d);
      KeepUnits(k, k, Queue(s, k.level), Queue(s', k.level), PoolAt(s, k.level), PoolAt(s', k.level), d);
    }
  }

  /** The marker of a call without tasks is dropped. */
  lemma WorkSkip(s: State, l: nat, j: nat)
    requires Inv(s) && WorkerEnabled(s, l, j) && s.pools[l][j].act.Idle? && s.queues[l][0].ZeroTasks?
    ensures Inv(WorkerNext(s, l, j))
  {
    var s' := WorkerNext(s, l, j);
    SkipPlaces(s, l);
    KeepWorkers(s, s');
    var k := s.callers[0];
    KeepStages(s, s', 0, k);
    KeepNotifies(s, s', 0, k);
    forall m, x | 0 <= m < |s'.queues| && 0 <= x < |s'.queues[m]| ensures EntryOk(s', m, s'.queues[m][x]) {
      assert EntryOk(s, m, s.queues[m][if m == l then x + 1 else x]);
    }
  }

  // ---------------------------------------------------------------------------
  // Publishing the delta, and counting the task
  // ---------------------------------------------------------------------------

  lemma PublishOk(k: Caller, q: seq<Entry>, pool: seq<Worker>, j: nat, w: Worker, c: nat, i: nat, shared: int, lost: int)
    requires CallerOk(k) && UnitsAt(k, q, pool, c) && j < |pool|
    requires Holds(pool[j]) == Some(Unit(c, i)) && Holds(w) == Some(Unit(c, i))
    ensures
      var k' := k.(credited := k.credited + {i}, sharedVar := shared, lost := lost);
      CallerOk(k') && UnitsAt(k', q, pool[j := w], c)
  {
    var k' := k.(credited := k.credited + {i}, sharedVar := shared, lost := lost);
    assert UnitOk(k, q, pool, Unit(c, i));
    PositiveHeld(pool, j, Unit(c, i));
    forall x: nat ensures UnitOk(k', q, pool[j := w], Unit(c, x)) {
      assert UnitOk(k, q, pool, Unit(c, x));
      HeldUpdate(pool, j, w, Unit(c, x));
    }
  }

  lemma PublishShape(s: State, l: nat, j: nat)
    requires WorkerEnabled(s, l, j) && s.pools[l][j].act.Publish? && l < |s.queues|
    ensures
      var s' := WorkerNext(s, l, j);
      var u, w := s.pools[l][j].act.u, s'.pools[l][j];
      var k' := s'.callers[u.caller];
      && s' == Moved(s, l, j, w, u.caller, k', s.queues[l])
      && w.act == Count(u)
      && k' == s.callers[u.caller].(credited := s.callers[u.caller].credited + {u.item}, sharedVar := k'.sharedVar, lost := k'.lost)
  {
    assert s.queues[l := s.queues[l]] == s.queues;
  }

  lemma WorkPublish(s: State, l: nat, j: nat)
    requires Inv(s) && WorkerEnabled(s, l, j) && s.pools[l][j].act.Publish?
    ensures Inv(WorkerNext(s, l, j))
  {
    var s' := WorkerNext(s, l, j);
    assert WorkerOk(s, l, j);
    var u := s.pools[l][j].act.u;
    var k, k', w := s.callers[u.caller], s'.callers[u.caller], s'.pools[l][j];
    assert CallerOk(k) && UnitsOk(s, u.caller) && LevelOk(s, k);
    PublishShape(s, l, j);
    PositiveHeld(s.pools[l], j, u);
    assert UnitOk(k, Queue(s, l), PoolAt(s, l), u);
    PublishOk(k, s.queues[l], s.pools[l], j, w, u.caller, u.item, k'.sharedVar, k'.lost);
    UnitMove(s, l, j, w, u.caller, k', s.queues[l], u.item);
  }

  lemma CountOk(k: Caller, q: seq<Entry>, pool: seq<Worker>, j: nat, w: Worker, c: nat, i: nat)
    requires CallerOk(k) && UnitsAt(k, q, pool, c) && j < |pool| && i in k.credited
    requires Holds(pool[j]) == Some(Unit(c, i)) && Holds(w).None?
    ensures
      var k' := k.(finished := k.finished + 1, done := k.done + {i});
      CallerOk(k') && UnitsAt(k', q, pool[j := w], c)
    ensures k.finished < k.numTasks
  {
    var k' := k.(finished := k.finished + 1, done := k.done + {i});
    assert UnitOk(k, q, pool, Unit(c, i));
    PositiveHeld(pool, j, Unit(c, i));
    FewerDone(k.done, Accepted(k.call.events, k.next), i);
    forall x: nat ensures UnitOk(k', q, pool[j := w], Unit(c, x)) {
      assert UnitOk(k, q, pool, Unit(c, x));
      HeldUpdate(pool, j, w, Unit(c, x));
    }
  }

  lemma CountMoving(s: State, l: nat, j: nat)
    requires WorkersOk(s) && CallersOk(s) && PlacesOk(s) && StagesOk(s)
    requires WorkerEnabled(s, l, j) && s.pools[l][j].act.Count?
    ensures
      var u := s.pools[l][j].act.u;
      var k' := WorkerNext(s, l, j).callers[u.caller];
      && l < |s.queues|
      && Moving(s, l, j, WorkerNext(s, l, j).pools[l][j], u.caller, k', s.queues[l], u.item)
      && k' == s.callers[u.caller].(finished := k'.finished, done := k'.done)
  {
    var s' := WorkerNext(s, l, j);
    assert WorkerOk(s, l, j);
    var u := s.pools[l][j].act.u;
    var k := s.callers[u.caller];
    assert CallerOk(k) && UnitsOk(s, u.caller);
    assert LevelOk(s, k);
    PositiveHeld(s.pools[l], j, u);
    assert UnitOk(k, Queue(s, l), PoolAt(s, l), u);
    CountOk(k, s.queues[l], s.pools[l], j, s'.pools[l][j], u.caller, u.item);
  }

  lemma WorkCount(s: State, l: nat, j: nat)
    requires Inv(s) && WorkerEnabled(s, l, j) && s.pools[l][j].act.Count?
    ensures Inv(WorkerNext(s, l, j))
  {
    var s' := WorkerNext(s, l, j);
    var u := s.pools[l][j].act.u;
    CountMoving(s, l, j);
    assert s.queues[l := s.queues[l]] == s.queues;
    UnitMove(s, l, j, s'.pools[l][j], u.caller, s'.callers[u.caller], s.queues[l], u.item);
  }

  lemma WorkNotify(s: State, l: nat, j: nat)
    requires Inv(s) && WorkerEnabled(s, l, j) && s.pools[l][j].act.NotifyDone?
    ensures Inv(WorkerNext(s, l, j))
  {
    assert WorkerOk(s, l, j);
    var c := s.pools[l][j].act.caller;
    CompleteMove(s, c);
    var t := s.(callers := Complete(s.callers, c));
    WorkerMove(t, l, j, s.pools[l][j].(act := Idle));
  }

  // ---------------------------------------------------------------------------
  // Nested calls
  // ---------------------------------------------------------------------------

  /** The state after worker (l, j), now `w`, has set up nested caller `k`. */
  function Nested(s: State, l: nat, j: nat, w: Worker, k: Caller): State
    requires IsWorker(s, l, j)
  {
    SetWorker(s.(callers := s.callers + [k]), l, j, w)
  }

  ghost predicate Nesting(s: State, l: nat, j: nat, w: Worker, k: Caller) {
    && IsWorker(s, l, j)
    && k == NewCaller(k.call, l + 1, ByWorker(l, j), WantLock, k.base)
    && s.pools[l][j].act.Body?
    && w.act.InApply? && w.act.child == |s.callers| && w.act.u == s.pools[l][j].act.u
  }

  lemma NestedStages(s: State, l: nat, j: nat, w: Worker, k: Caller)
    requires LevelsOk(s) && StagesOk(s) && Nesting(s, l, j, w, k)
    ensures LevelsOk(Nested(s, l, j, w, k)) && StagesOk(Nested(s, l, j, w, k))
  {
    var s' := Nested(s, l, j, w, k);
    forall d | 0 <= d < |s'.callers| ensures LevelOk(s', s'.callers[d]) && ParentOk(s', d) {
      if d < |s.callers| { assert LevelOk(s, s.callers[d]) && ParentOk(s, d); }
    }
  }

  lemma NestedNotifies(s: State, l: nat, j: nat, w: Worker, k: Caller)
    requires NotifiesOk(s) && Nesting(s, l, j, w, k)
    ensures NotifiesOk(Nested(s, l, j, w, k))
  {
    var s' := Nested(s, l, j, w, k);
    forall d | 0 <= d < |s'.callers| ensures NotifyOk(s', d) {
      if d < |s.callers| {
        var k := s.callers[d];
        assert NotifyOk(s, d);
        if NotifyDue(k) {
          var x :| 0 <= x < |PoolAt(s, k.level)| && AboutToNotify(PoolAt(s, k.level)[x], d, k.finished);
          assert AboutToNotify(PoolAt(s', k.level)[x], d, k.finished);
        }
      }
    }
  }

  /** Nothing in a queue or a pool belongs to a caller that does not exist yet. */
  lemma NoUnits(s: State, l: nat, i: nat)
    requires EntriesOk(s) && WorkersOk(s)
    ensures Queued(Queue(s, l), Unit(|s.callers|, i)) == 0
    ensures Held(PoolAt(s, l), Unit(|s.callers|, i)) == 0
  {
    var u := Unit(|s.callers|, i);
    forall e | e in Queue(s, l) ensures e != Work(u) {
      var x :| 0 <= x < |Queue(s, l)| && Queue(s, l)[x] == e;
      assert EntryOk(s, l, s.queues[l][x]);
    }
    forall x | 0 <= x < |PoolAt(s, l)| ensures Holds(PoolAt(s, l)[x]) != Some(u) {
      assert WorkerOk(s, l, x);
    }
    assert Some(u) !in Holding(PoolAt(s, l));
  }

  lemma NestedPlaces(s: State, l: nat, j: nat, w: Worker, k: Caller)
    requires PlacesOk(s) && EntriesOk(s) && WorkersOk(s) && Nesting(s, l, j, w, k)
    ensures PlacesOk(Nested(s, l, j, w, k))
  {
    var s' := Nested(s, l, j, w, k);
    KeepPlacesWorker(s, l, j, w);
    forall d | 0 <= d < |s'.callers| ensures UnitsOk(s', d) {
      if d < |s.callers| {
        assert UnitsOk(SetWorker(s, l, j, w), d);
        assert Queue(s', s'.callers[d].level) == Queue(s, s'.callers[d].level);
      } else {
        forall i: nat ensures UnitOk(k, Queue(s', l + 1), PoolAt(s', l + 1), Unit(d, i)) {
          NoUnits(s, l + 1, i);
          assert Queue(s', l + 1) == Queue(s, l + 1) && PoolAt(s', l + 1) == PoolAt(s, l + 1);
        }
      }
    }
  }

  lemma NestedWorkers(s: State, l: nat, j: nat, w: Worker, k: Caller)
    requires WorkersOk(s) && Nesting(s, l, j, w, k)
    requires WorkerOk(Nested(s, l, j, w, k), l, j)
    ensures WorkersOk(Nested(s, l, j, w, k))
  {
    var s' := Nested(s, l, j, w, k);
    forall m, x | 0 <= m < |s'.pools| && 0 <= x < |s'.pools[m]| ensures WorkerOk(s', m, x) {
      assert WorkerOk(s, m, x);
      if m != l || x != j { KeepWorker(s, s', m, x); }
    }
  }

  lemma NestedInv(s: State, l: nat, j: nat, w: Worker, k: Caller)
    requires Inv(s) && Nesting(s, l, j, w, k) && WorkerOk(Nested(s, l, j, w, k), l, j)
    ensures Inv(Nested(s, l, j, w, k))
  {
    var s' := Nested(s, l, j, w, k);
    NestedStages(s, l, j, w, k);
    NestedNotifies(s, l, j, w, k);
    NestedPlaces(s, l, j, w, k);
    NestedWorkers(s, l, j, w, k);
    KeepEntries(s, s');
    NewCallerOk(k.call, l + 1, ByWorker(l, j), k.base);
    forall d | 0 <= d < |s'.callers| ensures CallerOk(s'.callers[d]) {
      if d < |s.callers| { assert CallerOk(s.callers[d]); }
    }
  }

  lemma WorkCall(s: State, l: nat, j: nat)
    requires Inv(s) && WorkerEnabled(s, l, j) && s.pools[l][j].act.Body?
    requires
      var Body(u, k) := s.pools[l][j].act;
      k < |TaskOf(s, u).actions| && TaskOf(s, u).actions[k].CallApply?
    ensures Inv(WorkerNext(s, l, j))
  {
    var s' := WorkerNext(s, l, j);
    assert WorkerOk(s, l, j);
    NestedInv(s, l, j, s'.pools[l][j], s'.callers[|s.callers|]);
  }

  lemma NewCallerOk(call: Call, level: nat, parent: Parent, base: int)
    ensures CallerOk(NewCaller(call, level, parent, WantLock, base))
  {
    assert Accepted(call.events, 0) == {};
  }

  lemma WorkerKeeps(s: State, l: nat, j: nat)
    requires Inv(s) && WorkerEnabled(s, l, j)
    ensures Inv(WorkerNext(s, l, j))
  {
    match s.pools[l][j].act
    case Idle => if s.queues[l][0].Work? { WorkTake(s, l, j); } else { WorkSkip(s, l, j); }
    case Body(u, k) =>
      if k == |TaskOf(s, u).actions| { WorkBodyEnd(s, l, j); }
      else if TaskOf(s, u).actions[k].Bump? { WorkBump(s, l, j); }
      else { WorkCall(s, l, j); }
    case Record(_) => WorkRecord(s, l, j);
    case Handle(_) => WorkHandle(s, l, j);
    case Publish(_) => WorkPublish(s, l, j);
    case Count(_) => WorkCount(s, l, j);
    case CompareDone(_, _) => WorkCompare(s, l, j);
    case NotifyDone(_) => WorkNotify(s, l, j);
  }

  // ---------------------------------------------------------------------------
  // Apply returns
  // ---------------------------------------------------------------------------

  /** A returned caller and the worker that goes on with its task. */
  function Back(s: State, c: nat, l: nat, j: nat, w: Worker): State
    requires IsWorker(s, l, j) && c < |s.callers|
  {
    SetWorker(SetCaller(s, c, s.callers[c].(wait := Returned)), l, j, w)
  }

  ghost predicate GoingBack(s: State, c: nat, l: nat, j: nat, w: Worker) {
    && c < |s.callers| && IsWorker(s, l, j)
    && s.callers[c].wait.Check? && s.callers[c].completed
    && s.callers[c].parent == ByWorker(l, j)
    && s.pools[l][j].act.InApply? && s.pools[l][j].act.child == c
    && SameHold(s.pools[l][j], w) && !w.act.InApply?
  }

  lemma BackStages(s: State, c: nat, l: nat, j: nat, w: Worker)
    requires LevelsOk(s) && StagesOk(s) && GoingBack(s, c, l, j, w)
    ensures LevelsOk(Back(s, c, l, j, w)) && StagesOk(Back(s, c, l, j, w))
  {
    var s' := Back(s, c, l, j, w);
    forall d | 0 <= d < |s'.callers| ensures LevelOk(s', s'.callers[d]) && ParentOk(s', d) {
      assert LevelOk(s, s.callers[d]) && ParentOk(s, d);
    }
  }

  lemma BackPlaces(s: State, c: nat, l: nat, j: nat, w: Worker)
    requires PlacesOk(s) && NotifiesOk(s) && GoingBack(s, c, l, j, w)
    ensures PlacesOk(Back(s, c, l, j, w)) && NotifiesOk(Back(s, c, l, j, w))
  {
    var s' := Back(s, c, l, j, w);
    var t := SetWorker(s, l, j, w);
    KeepPlacesWorker(s, l, j, w);
    KeepNotifiesWorker(s, l, j, w);
    KeepNotifies(t, s', c, s'.callers[c]);
    forall d | 0 <= d < |s'.callers| ensures UnitsOk(s', d) {
      var k := t.callers[d];
      assert UnitsOk(t, d);
      KeepUnits(k, s'.callers[d], Queue(t, k.level), Queue(s', k.level), PoolAt(t, k.level), PoolAt(s', k.level), d);
    }
  }

  lemma BackWorkers(s: State, c: nat, l: nat, j: nat, w: Worker)
    requires WorkersOk(s) && GoingBack(s, c, l, j, w)
    requires WorkerOk(Back(s, c, l, j, w), l, j)
    ensures WorkersOk(Back(s, c, l, j, w))
  {
    var s' := Back(s, c, l, j, w);
    forall m, x | 0 <= m < |s'.pools| && 0 <= x < |s'.pools[m]| ensures WorkerOk(s', m, x) {
      assert WorkerOk(s, m, x);
      if m != l || x != j {
        var v := s.pools[m][x];
        if v.act.InApply? { assert v.act.child != c; }
      }
    }
  }

  lemma ReturnOk(k: Caller, q: seq<Entry>, pool: seq<Worker>, c: nat)
    requires CallerOk(k) && UnitsAt(k, q, pool, c) && k.completed
    ensures CallerOk(k.(wait := Returned)) || k.prod.NotStarted?
    ensures UnitsAt(k.(wait := Returned), q, pool, c)
  {
    KeepUnits(k, k.(wait := Returned), q, q, pool, pool, c);
  }

  lemma ResumeOk(s: State, c: nat, l: nat, j: nat)
    requires c < |s.callers| && IsWorker(s, l, j) && WorkerOk(s, l, j) && CallerOk(s.callers[c])
    requires s.pools[l][j].act.InApply? && s.pools[l][j].act.child == c
    requires s.callers[c].wait.Check? && s.callers[c].completed
    ensures SameHold(s.pools[l][j], Resume(s.pools[l][j], s.callers[c]))
    ensures WorkerOk(Back(s, c, l, j, Resume(s.pools[l][j], s.callers[c])), l, j)
  {
  }

  lemma ReturnToWorker(s: State, c: nat, l: nat, j: nat)
    requires Inv(s) && WaiterEnabled(s, c)
    requires var k := s.callers[c]; k.wait.Check? && k.completed && k.parent == ByWorker(l, j)
    ensures Inv(WaiterNext(s, c))
  {
    var k := s.callers[c];
    var w := Resume(s.pools[l][j], k);
    assert WorkerOk(s, l, j) && CallerOk(k) && UnitsOk(s, c);
    ResumeOk(s, c, l, j);
    var s' := Back(s, c, l, j, w);
    BackStages(s, c, l, j, w);
    BackPlaces(s, c, l, j, w);
    BackWorkers(s, c, l, j, w);
    KeepEntries(s, s');
    ReturnOk(k, Queue(s, k.level), PoolAt(s, k.level), c);
    KeepCallers(s, s', c);
  }

  lemma ReturnToMain(s: State, c: nat)
    requires Inv(s) && WaiterEnabled(s, c)
    requires var k := s.callers[c]; k.wait.Check? && k.completed && k.parent.Main?
    ensures Inv(WaiterNext(s, c))
  {
    var k := s.callers[c];
    var k' := k.(wait := Returned);
    var s' := SetCaller(s, c, k');
    assert CallerOk(k) && UnitsOk(s, c);
    ReturnOk(k, Queue(s, k.level), PoolAt(s, k.level), c);
    KeepPlaces(s, s', c, k');
    KeepNotifies(s, s', c, k');
    MainWorkers(s, c);
    MainStages(s, c);
    KeepEntries(s, s');
    KeepCallers(s, s', c);
  }

  lemma MainStages(s: State, c: nat)
    requires LevelsOk(s) && StagesOk(s) && c < |s.callers|
    requires var k := s.callers[c]; k.wait.Check? && k.parent.Main?
    ensures
      var s' := SetCaller(s, c, s.callers[c].(wait := Returned));
      LevelsOk(s') && StagesOk(s')
  {
    var s' := SetCaller(s, c, s.callers[c].(wait := Returned));
    forall d | 0 <= d < |s'.callers| ensures LevelOk(s', s'.callers[d]) && ParentOk(s', d) {
      assert LevelOk(s, s.callers[d]) && ParentOk(s, d);
    }
  }

  lemma MainWorkers(s: State, c: nat)
    requires WorkersOk(s) && c < |s.callers| && s.callers[c].parent.Main?
    ensures WorkersOk(SetCaller(s, c, s.callers[c].(wait := Returned)))
  {
    var s' := SetCaller(s, c, s.callers[c].(wait := Returned));
    forall m, x | 0 <= m < |s'.pools| && 0 <= x < |s'.pools[m]| ensures WorkerOk(s', m, x) {
      assert WorkerOk(s, m, x);
    }
  }

  lemma WaiterKeeps(s: State, c: nat)
    requires Inv(s) && WaiterEnabled(s, c)
    ensures Inv(WaiterNext(s, c))
  {
    var k := s.callers[c];
    if SettingUp(k.wait) { WaitSetUp(s, c); }
    else if k.wait.Check? && k.completed {
      match k.parent
      case Main => ReturnToMain(s, c);
      case ByWorker(l, j) => ReturnToWorker(s, c, l, j);
    }
    else { WaitLocal(s, c); }
  }

  // ---------------------------------------------------------------------------
  // Every step, and every run
  // ---------------------------------------------------------------------------

  lemma StepKeeps(s: State, step: Step)
    requires Inv(s) && Enabled(s, step)
    ensures Inv(Next(s, step))
  {
    match step
    case WaiterStep(c) => WaiterKeeps(s, c);
    case ProducerStep(c) => ProducerKeeps(s, c);
    case WorkerStep(l, j) => WorkerKeeps(s, l, j);
  }

  lemma {:induction false} RunKeeps(s: State, steps: seq<Step>, s': State)
    requires Inv(s) && Run(s, steps, s')
    ensures Inv(s')
    decreases |steps|
  {
    if steps != [] {
      StepKeeps(s, steps[0]);
      RunKeeps(Next(s, steps[0]), steps[1..], s');
    }
  }

  /** The states some schedule reaches from a fresh process in which the main thread calls Apply. */
  ghost predicate Reachable(call: Call, threads: nat, attr: int, s: State) {
    threads > 0 && exists steps :: Run(Init(call, threads, attr), steps, s)
  }

  lemma ReachableInv(call: Call, threads: nat, attr: int, s: State)
    requires Reachable(call, threads, attr, s)
    ensures Inv(s)
  {
    var steps :| Run(Init(call, threads, attr), steps, s);
    InitInv(call, threads, attr);
    RunKeeps(Init(call, threads, attr), steps, s);
  }

  lemma {:induction false} RunSnoc(s: State, steps: seq<Step>, t: State, step: Step)
    requires Run(s, steps, t) && Enabled(t, step)
    ensures Run(s, steps + [step], Next(t, step))
    decreases |steps|
  {
    if steps == [] {
      assert steps + [step] == [step];
      assert Run(Next(t, step), [step][1..], Next(t, step));
    } else {
      assert (steps + [step])[1..] == steps[1..] + [step];
      RunSnoc(Next(s, steps[0]), steps[1..], t, step);
    }
  }

  lemma ReachableStep(call: Call, threads: nat, attr: int, s: State, step: Step)
    requires Reachable(call, threads, attr, s) && Enabled(s, step)
    ensures Reachable(call, threads, attr, Next(s, step))
  {
    var steps :| Run(Init(call, threads, attr), steps, s);
    RunSnoc(Init(call, threads, attr), steps, s, step);
  }
}
