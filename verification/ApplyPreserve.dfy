/** Every step keeps the invariant. */
module ApplyPreserve {
  import opened Wrappers
  import opened ApplyProgram
  import opened ApplyMachine
  import opened ApplyInvariant

  // ---------------------------------------------------------------------------
  // What a change of one caller or one worker leaves alone
  // ---------------------------------------------------------------------------

  /** The facts about a caller that other threads rely on. */
  predicate Steady(k: Caller, k': Caller) {
    && k'.call == k.call && k'.level == k.level && k'.parent == k.parent
    && k'.wait.Returned? == k.wait.Returned?
    && k.finished <= k'.finished
    && (k.total == k.finished ==> k'.total == k'.finished)
  }

  predicate AllSteady(s: State, s': State) {
    && |s.callers| <= |s'.callers|
    && forall c :: 0 <= c < |s.callers| ==> Steady(s.callers[c], s'.callers[c])
  }

  lemma KeepWorker(s: State, s': State, l: nat, j: nat)
    requires IsWorker(s, l, j) && IsWorker(s', l, j) && s'.pools[l][j] == s.pools[l][j]
    requires WorkerOk(s, l, j) && AllSteady(s, s')
    requires forall u :: Holds(s.pools[l][j]) == Some(u) ==>
      (u.item in s'.callers[u.caller].credited <==> u.item in s.callers[u.caller].credited)
    ensures WorkerOk(s', l, j)
  {
    var w := s.pools[l][j];
    if Holds(w).Some? {
      var u := Holds(w).value;
      assert Steady(s.callers[u.caller], s'.callers[u.caller]);
    }
    match w.act
    case InApply(u, k, child, _) => assert Steady(s.callers[child], s'.callers[child]);
    case CompareDone(c, _) => assert Steady(s.callers[c], s'.callers[c]);
    case NotifyDone(c) => assert Steady(s.callers[c], s'.callers[c]);
    case _ =>
  }

  lemma KeepWorkers(s: State, s': State)
    requires WorkersOk(s) && s'.pools == s.pools && AllSteady(s, s')
    requires forall c :: 0 <= c < |s.callers| ==> s'.callers[c].credited == s.callers[c].credited
    ensures WorkersOk(s')
  {
    forall l, j | 0 <= l < |s'.pools| && 0 <= j < |s'.pools[l]| ensures WorkerOk(s', l, j) {
      assert WorkerOk(s, l, j);
      KeepWorker(s, s', l, j);
    }
  }

  lemma KeepUnits(k: Caller, k': Caller, q: seq<Entry>, q': seq<Entry>, pool: seq<Worker>, pool': seq<Worker>, c: nat)
    requires UnitsAt(k, q, pool, c)
    requires
      && k'.call == k.call && k'.cur == k.cur && k'.next == k.next && k'.done == k.done && k'.taken == k.taken
      && k'.credited == k.credited
      && (k.prod.Put? || k'.prod.Put? ==> k'.prod == k.prod)
    requires forall i: nat :: Queued(q', Unit(c, i)) == Queued(q, Unit(c, i))
    requires forall i: nat :: Held(pool', Unit(c, i)) == Held(pool, Unit(c, i))
    ensures UnitsAt(k', q', pool', c)
  {
    forall i: nat ensures UnitOk(k', q', pool', Unit(c, i)) {
      assert UnitOk(k, q, pool, Unit(c, i));
      assert Queued(q', Unit(c, i)) == Queued(q, Unit(c, i));
      assert Held(pool', Unit(c, i)) == Held(pool, Unit(c, i));
    }
  }

  predicate NotifyDue(k: Caller) { k.total >= 1 && k.finished == k.total && !k.completed }

  predicate SameStage(w: Waiter, w': Waiter) {
    w' == w || (w' in {Check, Waiting} && w in {StartProducer, Check})
  }

  lemma KeepStages(s: State, s': State, c: nat, k': Caller)
    requires LevelsOk(s) && StagesOk(s) && c < |s.callers|
    requires s' == s.(callers := s.callers[c := k'], queues := s'.queues) && |s'.queues| == |s.queues|
    requires Steady(s.callers[c], k') && SameStage(s.callers[c].wait, k'.wait)
    ensures LevelsOk(s') && StagesOk(s')
  {
    forall d | 0 <= d < |s'.callers| ensures LevelOk(s', s'.callers[d]) && ParentOk(s', d) {
      assert LevelOk(s, s.callers[d]) && ParentOk(s, d);
    }
  }

  lemma KeepNotifies(s: State, s': State, c: nat, k': Caller)
    requires NotifiesOk(s) && c < |s.callers|
    requires s' == s.(callers := s.callers[c := k'], queues := s'.queues) && k'.level == s.callers[c].level
    requires NotifyDue(k') ==> NotifyDue(s.callers[c]) && k'.finished == s.callers[c].finished
    ensures NotifiesOk(s')
  {
    forall d | 0 <= d < |s'.callers| ensures NotifyOk(s', d) {
      assert NotifyOk(s, d) && PoolAt(s', s.callers[d].level) == PoolAt(s, s.callers[d].level);
    }
  }

  lemma KeepPlaces(s: State, s': State, c: nat, k': Caller)
    requires PlacesOk(s) && c < |s.callers|
    requires s' == s.(callers := s.callers[c := k'], queues := s'.queues)
    requires UnitsOk(s', c)
    requires forall l: nat, d: nat, i: nat :: d != c ==>
      Queued(Queue(s', l), Unit(d, i)) == Queued(Queue(s, l), Unit(d, i))
    ensures PlacesOk(s')
  {
    forall d | 0 <= d < |s'.callers| ensures UnitsOk(s', d) {
      if d != c {
        var k := s.callers[d];
        assert UnitsOk(s, d);
        KeepUnits(k, k, Queue(s, k.level), Queue(s', k.level), PoolAt(s, k.level), PoolAt(s', k.level), d);
      }
    }
  }

  /** Calls and levels never change. */
  predicate SameCalls(s: State, s': State) {
    && |s.callers| <= |s'.callers|
    && forall c :: 0 <= c < |s.callers| ==>
         s'.callers[c].call == s.callers[c].call && s'.callers[c].level == s.callers[c].level
  }

  lemma KeepEntries(s: State, s': State)
    requires EntriesOk(s) && SameCalls(s, s') && s'.queues == s.queues
    ensures EntriesOk(s')
  {
    forall l, i | 0 <= l < |s'.queues| && 0 <= i < |s'.queues[l]| ensures EntryOk(s', l, s'.queues[l][i]) {
      assert EntryOk(s, l, s.queues[l][i]);
    }
  }

  lemma KeepCallers(s: State, s': State, c: nat)
    requires CallersOk(s) && c < |s.callers| == |s'.callers| && s'.callers == s.callers[c := s'.callers[c]]
    requires CallerOk(s'.callers[c])
    ensures CallersOk(s')
  {
    forall d | 0 <= d < |s'.callers| ensures CallerOk(s'.callers[d]) { assert CallerOk(s.callers[d]); }
  }

  /** The conditions under which a change of caller `c` by its own threads is harmless. */
  ghost predicate Harmless(k: Caller, k': Caller) {
    && CallerOk(k') && Steady(k, k') && k'.credited == k.credited && SameStage(k.wait, k'.wait)
    && (NotifyDue(k') ==> NotifyDue(k) && k'.finished == k.finished)
  }

  lemma CallerMove(s: State, c: nat, k': Caller)
    requires Inv(s) && c < |s.callers|
    requires Harmless(s.callers[c], k')
    requires UnitsAt(k', Queue(s, k'.level), PoolAt(s, k'.level), c)
    ensures Inv(SetCaller(s, c, k'))
  {
    var s' := SetCaller(s, c, k');
    KeepWorkers(s, s');
    KeepStages(s, s', c, k');
    KeepNotifies(s, s', c, k');
    KeepPlaces(s, s', c, k');
    KeepEntries(s, s');
  }

  /** The same, when the producer also enqueues an entry. */
  lemma EnqueueEntries(s: State, s': State, level: nat, e: Entry, c: nat)
    requires EntriesOk(s) && level < |s.queues| && s'.queues == s.queues[level := s.queues[level] + [e]]
    requires |s'.callers| == |s.callers|
    requires forall d :: 0 <= d < |s.callers| ==> s'.callers[d].call == s.callers[d].call && s'.callers[d].level == s.callers[d].level
    requires EntryOk(s', level, e)
    ensures EntriesOk(s')
  {
    forall l, i | 0 <= l < |s'.queues| && 0 <= i < |s'.queues[l]| ensures EntryOk(s', l, s'.queues[l][i]) {
      if i < |s.queues[l]| { assert EntryOk(s, l, s.queues[l][i]); }
    }
  }

  lemma CallerEnqueue(s: State, c: nat, k': Caller, e: Entry)
    requires Inv(s) && c < |s.callers| && k'.level < |s.queues|
    requires Harmless(s.callers[c], k')
    requires UnitsAt(k', s.queues[k'.level] + [e], PoolAt(s, k'.level), c)
    requires e.Work? ==> e.u.caller == c && IsTask(k'.call.events, e.u.item)
    ensures Inv(SetCaller(Enqueue(s, k'.level, e), c, k'))
  {
    var s' := SetCaller(Enqueue(s, k'.level, e), c, k');
    KeepWorkers(s, s');
    KeepStages(s, s', c, k');
    KeepNotifies(s, s', c, k');
    EnqueueFrame(s, k'.level, e, c);
    KeepPlaces(s, s', c, k');
    EnqueueEntries(s, s', k'.level, e, c);
  }

  // ---------------------------------------------------------------------------
  // The producer
  // ---------------------------------------------------------------------------

  lemma FetchedCaller(k: Caller)
    requires CallerOk(k) && k.prod.Fetch? && (k.cur.Some? ==> k.cur.value < k.next)
    ensures CallerOk(Fetched(k)) && !NotifyDue(Fetched(k)) && Steady(k, Fetched(k))
  {
    if k.next < |k.call.events| { AcceptedGrows(k.call.events, k.next); }
  }

  lemma FetchedOk(k: Caller, q: seq<Entry>, pool: seq<Worker>, c: nat)
    requires CallerOk(k) && UnitsAt(k, q, pool, c) && k.prod.Fetch?
    ensures CallerOk(Fetched(k)) && UnitsAt(Fetched(k), q, pool, c)
    ensures !NotifyDue(Fetched(k)) && Steady(k, Fetched(k))
  {
    if k.next < |k.call.events| { AcceptedGrows(k.call.events, k.next); }
    if k.cur.Some? { assert UnitOk(k, q, pool, Unit(c, k.cur.value)); }
    FetchedCaller(k);
    var k' := Fetched(k);
    forall i: nat ensures UnitOk(k', q, pool, Unit(c, i)) {
      assert UnitOk(k, q, pool, Unit(c, i));
    }
  }

  lemma ProdFetch(s: State, c: nat)
    requires Inv(s) && ProducerEnabled(s, c) && s.callers[c].prod.Fetch?
    ensures Inv(ProducerNext(s, c))
  {
    var k := s.callers[c];
    assert CallerOk(k) && UnitsOk(s, c);
    FetchedOk(k, Queue(s, k.level), PoolAt(s, k.level), c);
    CallerMove(s, c, Fetched(k));
  }

  /** Appending an entry to a queue. */
  lemma Enqueued(q: seq<Entry>, e: Entry, u: Unit)
    ensures Queued(q + [e], u) == Queued(q, u) + B2N(e == Work(u))
  {
  }

  lemma PutOk(k: Caller, q: seq<Entry>, pool: seq<Worker>, c: nat)
    requires CallerOk(k) && UnitsAt(k, q, pool, c) && k.prod.Put?
    ensures CallerOk(k.(prod := Fetch)) && UnitsAt(k.(prod := Fetch), q + [Work(Unit(c, k.prod.item))], pool, c)
    ensures k.prod.item in Accepted(k.call.events, k.next)
  {
    var e := Work(Unit(c, k.prod.item));
    assert UnitOk(k, q, pool, Unit(c, k.prod.item));
    forall i: nat ensures UnitOk(k.(prod := Fetch), q + [e], pool, Unit(c, i)) {
      assert UnitOk(k, q, pool, Unit(c, i));
      Enqueued(q, e, Unit(c, i));
    }
  }

  /** An enqueued entry of caller `c` concerns no other caller. */
  lemma EnqueueFrame(s: State, level: nat, e: Entry, c: nat)
    requires level < |s.queues| && (e.Work? ==> e.u.caller == c)
    ensures forall l: nat, d: nat, i: nat :: d != c ==>
      Queued(Queue(Enqueue(s, level, e), l), Unit(d, i)) == Queued(Queue(s, l), Unit(d, i))
  {
    forall l: nat, d: nat, i: nat | d != c
      ensures Queued(Queue(Enqueue(s, level, e), l), Unit(d, i)) == Queued(Queue(s, l), Unit(d, i))
    {
      if l == level { Enqueued(s.queues[l], e, Unit(d, i)); }
    }
  }

  lemma ProdPut(s: State, c: nat)
    requires Inv(s) && ProducerEnabled(s, c) && s.callers[c].prod.Put?
    ensures Inv(ProducerNext(s, c))
  {
    var k := s.callers[c];
    assert CallerOk(k) && UnitsOk(s, c);
    PutOk(k, Queue(s, k.level), PoolAt(s, k.level), c);
    var e := Work(Unit(c, k.prod.item));
    CallerEnqueue(s, c, k.(prod := Fetch), e);
  }

  lemma LastOk(k: Caller, q: seq<Entry>, pool: seq<Worker>, c: nat)
    requires CallerOk(k) && UnitsAt(k, q, pool, c) && k.prod.PutLast?
    ensures
      var e := if k.cur.Some? then Work(Unit(c, k.cur.value)) else ZeroTasks(c);
      var k' := k.(prod := ReadDone, cur := None);
      CallerOk(k') && UnitsAt(k', q + [e], pool, c) && (NotifyDue(k') ==> NotifyDue(k))
    ensures k.cur.Some? ==> k.cur.value in Accepted(k.call.events, k.next)
  {
    var e := if k.cur.Some? then Work(Unit(c, k.cur.value)) else ZeroTasks(c);
    if k.cur.Some? { assert UnitOk(k, q, pool, Unit(c, k.cur.value)); }
    forall i: nat ensures UnitOk(k.(prod := ReadDone, cur := None), q + [e], pool, Unit(c, i)) {
      assert UnitOk(k, q, pool, Unit(c, i));
      Enqueued(q, e, Unit(c, i));
    }
  }

  lemma ProdPutLast(s: State, c: nat)
    requires Inv(s) && ProducerEnabled(s, c) && s.callers[c].prod.PutLast?
    ensures Inv(ProducerNext(s, c))
  {
    var k := s.callers[c];
    assert CallerOk(k) && UnitsOk(s, c);
    LastOk(k, Queue(s, k.level), PoolAt(s, k.level), c);
    var e := if k.cur.Some? then Work(Unit(c, k.cur.value)) else ZeroTasks(c);
    CallerEnqueue(s, c, k.(prod := ReadDone, cur := None), e);
  }

  /** Before its last task is enqueued, a producer with tasks still holds one of them. */
  lemma NotAllDone(k: Caller, q: seq<Entry>, pool: seq<Worker>, c: nat)
    requires CallerOk(k) && UnitsAt(k, q, pool, c) && BeforeLast(k.prod) && k.cur.Some?
    ensures k.finished < k.numTasks
  {
    assert UnitOk(k, q, pool, Unit(c, k.cur.value));
    FewerDone(k.done, Accepted(k.call.events, k.next), k.cur.value);
  }

  lemma FewerDone<T>(a: set<T>, b: set<T>, x: T)
    requires a <= b && x in b && x !in a
    ensures |a| < |b|
  {
    SubsetSize(a, b - {x});
  }

  lemma {:induction false} SubsetSize<T>(a: set<T>, b: set<T>)
    requires a <= b
    ensures |a| <= |b|
    ensures |a| == |b| ==> a == b
  {
    if a != {} {
      var x :| x in a;
      SubsetSize(a - {x}, b - {x});
    }
  }

  /** What the producer does on its own, apart from fetching. */
  function ProdLocalNext(k: Caller): Caller {
    match k.prod
    case PublishError => Published(k)
    case SetTotal => k.(prod := PutLast, total := k.numTasks)
    case ReadDone => k.(prod := Compare(k.finished))
    case Compare(n) => k.(prod := if k.total == n && k.total >= 0 then Notify else Exited)
    case _ => k
  }

  lemma ProdLocalOk(k: Caller, q: seq<Entry>, pool: seq<Worker>, c: nat)
    requires CallerOk(k) && UnitsAt(k, q, pool, c)
    ensures Harmless(k, ProdLocalNext(k)) && UnitsAt(ProdLocalNext(k), q, pool, c)
  {
    if k.prod.SetTotal? && k.cur.Some? { NotAllDone(k, q, pool, c); }
    SubsetSize(k.done, Accepted(k.call.events, k.next));
    KeepUnits(k, ProdLocalNext(k), q, q, pool, pool, c);
  }

  lemma ProdLocal(s: State, c: nat)
    requires Inv(s) && ProducerEnabled(s, c)
    requires var p := s.callers[c].prod; p.ReadDone? || p.Compare? || p.SetTotal? || p.PublishError?
    ensures Inv(ProducerNext(s, c))
  {
    var k := s.callers[c];
    assert CallerOk(k) && UnitsOk(s, c);
    ProdLocalOk(k, Queue(s, k.level), PoolAt(s, k.level), c);
    CallerMove(s, c, ProdLocalNext(k));
  }

  // ---------------------------------------------------------------------------
  // Recording that a call is completed
  // ---------------------------------------------------------------------------

  lemma CompleteOk(k: Caller)
    requires CallerOk(k) && k.total == k.finished
    ensures CallerOk(Woken(k.(completed := true)))
  {
  }

  lemma CompletePlaces(s: State, c: nat)
    requires PlacesOk(s) && c < |s.callers|
    ensures PlacesOk(s.(callers := Complete(s.callers, c)))
  {
    var s' := s.(callers := Complete(s.callers, c));
    forall d | 0 <= d < |s'.callers| ensures UnitsOk(s', d) {
      var k := s.callers[d];
      assert UnitsOk(s, d);
      KeepUnits(k, s'.callers[d], Queue(s, k.level), Queue(s', k.level), PoolAt(s, k.level), PoolAt(s', k.level), d);
    }
  }

  lemma CompleteLevels(s: State, c: nat)
    requires LevelsOk(s) && c < |s.callers|
    ensures LevelsOk(s.(callers := Complete(s.callers, c)))
  {
  }

  lemma CompleteStages(s: State, c: nat)
    requires StagesOk(s) && c < |s.callers|
    ensures StagesOk(s.(callers := Complete(s.callers, c)))
  {
    var s' := s.(callers := Complete(s.callers, c));
    forall d | 0 <= d < |s'.callers| ensures LevelOk(s', s'.callers[d]) && ParentOk(s', d) {
      assert LevelOk(s, s.callers[d]) && ParentOk(s, d);
    }
  }

  lemma CompleteNotifies(s: State, c: nat)
    requires NotifiesOk(s) && c < |s.callers|
    ensures NotifiesOk(s.(callers := Complete(s.callers, c)))
  {
    var s' := s.(callers := Complete(s.callers, c));
    forall d | 0 <= d < |s'.callers| ensures NotifyOk(s', d) {
      assert NotifyOk(s, d) && PoolAt(s', s.callers[d].level) == PoolAt(s, s.callers[d].level);
    }
  }

  lemma CompleteCallers(s: State, c: nat)
    requires CallersOk(s) && c < |s.callers| && s.callers[c].total == s.callers[c].finished
    ensures CallersOk(s.(callers := Complete(s.callers, c)))
  {
    var s' := s.(callers := Complete(s.callers, c));
    forall d | 0 <= d < |s'.callers| ensures CallerOk(s'.callers[d]) {
      assert CallerOk(s.callers[d]);
      if d == c { CompleteOk(s.callers[d]); }
    }
  }

  lemma CompleteThreads(s: State, c: nat)
    requires WorkersOk(s) && EntriesOk(s) && c < |s.callers|
    ensures WorkersOk(s.(callers := Complete(s.callers, c))) && EntriesOk(s.(callers := Complete(s.callers, c)))
  {
    var s' := s.(callers := Complete(s.callers, c));
    KeepWorkers(s, s');
    KeepEntries(s, s');
  }

  lemma CompleteMove(s: State, c: nat)
    requires Inv(s) && c < |s.callers| && s.callers[c].total == s.callers[c].finished
    ensures Inv(s.(callers := Complete(s.callers, c)))
  {
    CompletePlaces(s, c);
    CompleteLevels(s, c);
    CompleteStages(s, c);
    CompleteNotifies(s, c);
    CompleteThreads(s, c);
    CompleteCallers(s, c);
  }

  lemma ExitOk(k: Caller, q: seq<Entry>, pool: seq<Worker>, c: nat)
    requires CallerOk(k) && UnitsAt(k, q, pool, c) && k.prod.Notify? && k.completed
    ensures Harmless(k, k.(prod := Exited)) && UnitsAt(k.(prod := Exited), q, pool, c)
  {
    KeepUnits(k, k.(prod := Exited), q, q, pool, pool, c);
  }

  lemma ExitMove(s: State, c: nat)
    requires Inv(s) && c < |s.callers| && s.callers[c].prod.Notify? && s.callers[c].completed
    ensures Inv(SetCaller(s, c, s.callers[c].(prod := Exited)))
  {
    var k := s.callers[c];
    assert CallerOk(k) && UnitsOk(s, c);
    ExitOk(k, Queue(s, k.level), PoolAt(s, k.level), c);
    CallerMove(s, c, k.(prod := Exited));
  }

  lemma CompleteThenExit(s: State, c: nat)
    requires c < |s.callers| && s.callers[c].prod.Notify?
    ensures
      var t := s.(callers := Complete(s.callers, c));
      t.callers[c].prod.Notify? && t.callers[c].completed && ProducerEnabled(s, c) &&
      ProducerNext(s, c) == SetCaller(t, c, t.callers[c].(prod := Exited))
  {
    var t := s.(callers := Complete(s.callers, c));
    assert ProducerNext(s, c).callers == SetCaller(t, c, t.callers[c].(prod := Exited)).callers;
  }

  lemma ProdNotify(s: State, c: nat)
    requires Inv(s) && ProducerEnabled(s, c) && s.callers[c].prod.Notify?
    ensures Inv(ProducerNext(s, c))
  {
    assert CallerOk(s.callers[c]);
    CompleteMove(s, c);
    CompleteThenExit(s, c);
    ExitMove(s.(callers := Complete(s.callers, c)), c);
  }

  lemma ProducerKeeps(s: State, c: nat)
    requires Inv(s) && ProducerEnabled(s, c)
    ensures Inv(ProducerNext(s, c))
  {
    match s.callers[c].prod
    case Fetch => ProdFetch(s, c);
    case Put(_) => ProdPut(s, c);
    case PutLast => ProdPutLast(s, c);
    case Notify => ProdNotify(s, c);
    case _ => ProdLocal(s, c);
  }

  // ---------------------------------------------------------------------------
  // The thread that called Apply
  // ---------------------------------------------------------------------------

  /** Setting up the pool of a level: only the waiter, the lock and the newest level change. */
  ghost predicate SetUp(s: State, s': State, c: nat, w: Waiter) {
    && c < |s.callers|
    && s'.callers == s.callers[c := s.callers[c].(wait := w)]
    && s'.threads == s.threads
    && Unstarted(s.callers[c].wait) && Unstarted(w)
    && (s'.queues == s.queues || s'.queues == s.queues + [[]])
    && (s'.pools == s.pools || s'.pools == s.pools + [Pool(s.threads)])
  }

  lemma FreshPoolHoldsNothing(n: nat, u: Unit)
    ensures Held(Pool(n), u) == 0 && Held([], u) == 0
  {
  }

  lemma SetUpPlaces(s: State, s': State, c: nat, w: Waiter)
    requires PlacesOk(s) && SetUp(s, s', c, w)
    ensures PlacesOk(s')
  {
    forall d | 0 <= d < |s'.callers| ensures UnitsOk(s', d) {
      var k := s.callers[d];
      assert UnitsOk(s, d);
      forall i: nat ensures Held(PoolAt(s', k.level), Unit(d, i)) == Held(PoolAt(s, k.level), Unit(d, i)) {
        FreshPoolHoldsNothing(s.threads, Unit(d, i));
      }
      KeepUnits(k, s'.callers[d], Queue(s, k.level), Queue(s', k.level), PoolAt(s, k.level), PoolAt(s', k.level), d);
    }
  }

  lemma SetUpWorkers(s: State, s': State, c: nat, w: Waiter)
    requires WorkersOk(s) && SetUp(s, s', c, w)
    ensures WorkersOk(s')
  {
    forall l, j | 0 <= l < |s'.pools| && 0 <= j < |s'.pools[l]| ensures WorkerOk(s', l, j) {
      if l < |s.pools| {
        assert WorkerOk(s, l, j);
        KeepWorker(s, s', l, j);
      }
    }
  }

  lemma SetUpEntries(s: State, s': State, c: nat, w: Waiter)
    requires EntriesOk(s) && NotifiesOk(s) && CallersOk(s) && SetUp(s, s', c, w)
    ensures EntriesOk(s') && NotifiesOk(s') && CallersOk(s')
  {
    forall l, i | 0 <= l < |s'.queues| && 0 <= i < |s'.queues[l]| ensures EntryOk(s', l, s'.queues[l][i]) {
      if l < |s.queues| { assert EntryOk(s, l, s.queues[l][i]); }
    }
    forall d | 0 <= d < |s'.callers| ensures NotifyOk(s', d) && CallerOk(s'.callers[d]) {
      assert NotifyOk(s, d) && CallerOk(s.callers[d]);
      if s.callers[d].level < |s.pools| {
        assert PoolAt(s', s.callers[d].level) == PoolAt(s, s.callers[d].level);
      }
    }
  }

  lemma SetUpLevels(s: State, c: nat)
    requires LevelsOk(s) && StagesOk(s) && WaiterEnabled(s, c)
    requires SettingUp(s.callers[c].wait)
    ensures LevelsOk(WaiterNext(s, c))
  {
    assert LevelOk(s, s.callers[c]);
  }

  lemma SetUpParents(s: State, c: nat)
    requires LevelsOk(s) && StagesOk(s) && WaiterEnabled(s, c) && SettingUp(s.callers[c].wait)
    ensures
      var s' := SetUpNext(s, c);
      && |s'.callers| == |s.callers| && |s'.pools| >= |s.pools| && |s'.queues| >= |s.queues|
      && forall d :: 0 <= d < |s'.callers| ==> ParentOk(s', d)
  {
    var s' := SetUpNext(s, c);
    assert LevelOk(s, s.callers[c]);
    assert forall l :: 0 <= l < |s.pools| ==> s'.pools[l] == s.pools[l];
    forall d | 0 <= d < |s'.callers| ensures ParentOk(s', d) { assert ParentOk(s, d); }
  }

  lemma SetUpStages(s: State, c: nat)
    requires LevelsOk(s) && StagesOk(s) && WaiterEnabled(s, c)
    requires SettingUp(s.callers[c].wait)
    ensures StagesOk(WaiterNext(s, c))
  {
    var s' := SetUpNext(s, c);
    SetUpParents(s, c);
    forall d | 0 <= d < |s'.callers| ensures LevelOk(s', s'.callers[d]) {
      assert LevelOk(s, s.callers[d]);
    }
  }

  lemma WaitSetUp(s: State, c: nat)
    requires Inv(s) && WaiterEnabled(s, c)
    requires SettingUp(s.callers[c].wait)
    ensures Inv(WaiterNext(s, c))
  {
    var s' := WaiterNext(s, c);
    var w := s'.callers[c].wait;
    SetUpLevels(s, c);
    SetUpStages(s, c);
    SetUpPlaces(s, s', c, w);
    SetUpWorkers(s, s', c, w);
    SetUpEntries(s, s', c, w);
  }

  lemma WaitLocalOk(k: Caller, q: seq<Entry>, pool: seq<Worker>, c: nat)
    requires CallerOk(k) && UnitsAt(k, q, pool, c)
    ensures k.wait.StartProducer? ==>
      var k' := k.(wait := Check, prod := Fetch); Harmless(k, k') && UnitsAt(k', q, pool, c)
    ensures k.wait.Check? && !k.completed ==>
      var k' := k.(wait := Waiting); Harmless(k, k') && UnitsAt(k', q, pool, c)
  {
    KeepUnits(k, k.(wait := Check, prod := if k.wait.StartProducer? then Fetch else k.prod), q, q, pool, pool, c);
    KeepUnits(k, k.(wait := Waiting), q, q, pool, pool, c);
  }

  lemma WaitLocal(s: State, c: nat)
    requires Inv(s) && WaiterEnabled(s, c)
    requires var k := s.callers[c]; k.wait.StartProducer? || (k.wait.Check? && !k.completed)
    ensures Inv(WaiterNext(s, c))
  {
    var k := s.callers[c];
    assert CallerOk(k) && UnitsOk(s, c);
    WaitLocalOk(k, Queue(s, k.level), PoolAt(s, k.level), c);
    CallerMove(s, c, WaiterNext(s, c).callers[c]);
  }
}
