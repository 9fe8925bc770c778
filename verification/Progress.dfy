/** Progress accounting: from the bytes put on the socket to the callbacks the user sees. */
module Progress {
  import opened Sequences
  import opened Wrappers

  const START_BYTES_PER_CALLBACK: nat := 1024 * 256
  const TIMEOUT_SECONDS: real := 1.0

  /** `calls` are the first arguments of the callbacks made so far. */
  datatype Tracker = Tracker(
    total: Option<nat>, bytesPerCallback: nat, timeout: real,
    lastTime: real, since: int, processed: int, calls: seq<int>)

  function NewTracker(total: Option<nat>, bytesPerCallback: nat, timeout: real, now: real): Tracker {
    Tracker(total, bytesPerCallback, timeout, now, 0, 0, [])
  }

  /** What was reported to the tracker so far. */
  function Counted(t: Tracker): int { t.processed + t.since }

  function Capped(t: Tracker, n: int): int { if t.total.Some? then Min(n, t.total.value) else n }

  /** When a report of `n` bytes leads to a callback. The last disjunct is meant to be a timeout, but it
      subtracts the times the wrong way round. */
  predicate CallsBack(t: Tracker, n: int, now: real) {
    || t.since + n > t.bytesPerCallback
    || (t.total.Some? && Counted(t) + n >= t.total.value)
    || t.lastTime - now > t.timeout
  }

  function Report(t: Tracker, n: int, now: real): Tracker {
    if CallsBack(t, n, now) then
      t.(since := 0, processed := Counted(t) + n, calls := t.calls + [Capped(t, Counted(t) + n)], lastTime := now)
    else t.(since := t.since + n)
  }

  /** One call of `Progress`. */
  datatype Tick = Tick(n: nat, now: real)

  function ReportAll(t: Tracker, ticks: seq<Tick>): Tracker
    decreases |ticks|
  {
    if ticks == [] then t else ReportAll(Report(t, ticks[0].n, ticks[0].now), ticks[1..])
  }

  function Bytes(ticks: seq<Tick>): nat {
    if ticks == [] then 0 else ticks[0].n + Bytes(ticks[1..])
  }

  predicate NonDecreasing(s: seq<int>) { forall i, j :: 0 <= i < j < |s| ==> s[i] <= s[j] }

  /** The callbacks never go back, never pass the total, and report what was processed. */
  predicate Sound(t: Tracker) {
    && NonDecreasing(t.calls)
    && 0 <= t.since && 0 <= t.processed
    && (forall i :: 0 <= i < |t.calls| ==> 0 <= t.calls[i] && (t.total.Some? ==> t.calls[i] <= t.total.value))
    && (if t.calls == [] then t.processed == 0 else t.calls[|t.calls| - 1] == Capped(t, t.processed))
    && t.since <= t.bytesPerCallback
    && (t.total.Some? && Counted(t) >= t.total.value && Counted(t) > 0 ==> t.since == 0)
  }

  lemma ReportSound(t: Tracker, n: nat, now: real)
    requires Sound(t)
    ensures Sound(Report(t, n, now)) && Counted(Report(t, n, now)) == Counted(t) + n
    ensures Report(t, n, now).total == t.total
  {
  }

  lemma SoundAtTotal(t: Tracker)
    requires Sound(t) && t.total.Some? && 0 < t.total.value <= Counted(t)
    ensures t.calls != [] && t.calls[|t.calls| - 1] == t.total.value
  {
  }

  /** Over any run of reports: nothing is lost, callbacks are non-decreasing and never exceed the total,
      once the bytes reach the total the last callback is exactly the total, and otherwise it is behind
      by no more than the callback interval. */
  lemma {:induction false} CallbacksSound(t: Tracker, ticks: seq<Tick>)
    requires Sound(t)
    ensures
      var r := ReportAll(t, ticks);
      && Sound(r) && r.total == t.total && r.bytesPerCallback == t.bytesPerCallback
      && Counted(r) == Counted(t) + Bytes(ticks)
      && (r.total.Some? && 0 < r.total.value <= Counted(r) ==>
            r.calls != [] && r.calls[|r.calls| - 1] == r.total.value)
      && (r.calls != [] && (r.total.None? || Counted(r) < r.total.value) ==>
            Counted(r) - r.bytesPerCallback <= r.calls[|r.calls| - 1] <= Counted(r))
    decreases |ticks|
  {
    if ticks != [] {
      ReportSound(t, ticks[0].n, ticks[0].now);
      CallbacksSound(Report(t, ticks[0].n, ticks[0].now), ticks[1..]);
    }
  }

  predicate ClockForward(from: real, ticks: seq<Tick>)
    decreases |ticks|
  {
    ticks != [] ==> from <= ticks[0].now && ClockForward(ticks[0].now, ticks[1..])
  }

  /** The tracker as if it had no timeout at all. */
  function ReportNoTimeout(t: Tracker, ticks: seq<Tick>): Tracker
    decreases |ticks|
  {
    if ticks == [] then t
    else
      var Tick(n, now) := ticks[0];
      var calls := t.since + n > t.bytesPerCallback || (t.total.Some? && Counted(t) + n >= t.total.value);
      var t' := if calls then t.(since := 0, processed := Counted(t) + n, calls := t.calls + [Capped(t, Counted(t) + n)])
                else t.(since := t.since + n);
      ReportNoTimeout(t', ticks[1..])
  }

  /** With a clock that does not run backwards the timeout never leads to a callback, although the class
      promises one at least every `timeout` seconds: the callbacks are those of a tracker without one. */
  lemma {:induction false} TimeoutNeverFires(t: Tracker, u: Tracker, ticks: seq<Tick>)
    requires t.timeout >= 0.0 && ClockForward(t.lastTime, ticks) && u == t.(lastTime := u.lastTime)
    ensures ReportAll(t, ticks).calls == ReportNoTimeout(u, ticks).calls
    decreases |ticks|
  {
    if ticks != [] {
      var Tick(n, now) := ticks[0];
      var t' := Report(t, n, now);
      if ticks[1..] != [] { assert t'.lastTime <= now <= ticks[1..][0].now; }
      var u' := t'.(lastTime := u.lastTime);
      TimeoutNeverFires(t', u', ticks[1..]);
    }
  }

  /** The tracker as an object. */
  class ProgressCallbackWithTimeout {
    const total: Option<nat>
    const bytesPerCallback: nat
    const timeout: real
    var lastTime: real
    var since: int
    var processed: int
    var calls: seq<int>

    constructor (total: Option<nat>, bytesPerCallback: nat, timeout: real, now: real)
      ensures State() == NewTracker(total, bytesPerCallback, timeout, now)
    {
      this.total, this.bytesPerCallback, this.timeout := total, bytesPerCallback, timeout;
      lastTime, since, processed, calls := now, 0, 0, [];
    }

    ghost function State(): Tracker
      reads this
    {
      Tracker(total, bytesPerCallback, timeout, lastTime, since, processed, calls)
    }

    method Progress(n: int, now: real)
      modifies this
      ensures State() == Report(old(State()), n, now)
    {
      since := since + n;
      if since > bytesPerCallback || (total.Some? && processed + since >= total.value) || lastTime - now > timeout {
        processed := processed + since;
        var sent := if total.Some? && total.value < processed then total.value else processed;
        calls := calls + [sent];
        since := 0;
        lastTime := now;
      }
    }
  }

  // ---------------------------------------------------------------------------
  // The upload connection
  // ---------------------------------------------------------------------------

  /** Data handed to `send` with the number of its bytes that are request metadata. */
  datatype Message = Message(data: seq<byte>, metadata: nat)

  /** The payload of a message. */
  function Payload(m: Message): nat { if m.metadata >= |m.data| then 0 else |m.data| - m.metadata }

  function Payloads(ms: seq<Message>): nat {
    if ms == [] then 0 else Payload(ms[0]) + Payloads(ms[1..])
  }

  function Wire(ms: seq<Message>): seq<byte> {
    if ms == [] then [] else ms[0].data + Wire(ms[1..])
  }

  class UploadCallbackConnection {
    const total: Option<nat>
    const initial: nat          // bytes the service had before this connection
    const bufferSize: nat
    const wanted: bool          // there is a progress callback
    var processedInitial: bool
    var tracker: ProgressCallbackWithTimeout?
    var wire: seq<byte>

    constructor (total: Option<nat>, initial: nat, bufferSize: nat, wanted: bool)
      requires bufferSize > 0
      ensures Valid() && !processedInitial && wire == []
      ensures this.total == total && this.initial == initial && this.wanted == wanted
    {
      this.total, this.initial, this.bufferSize, this.wanted := total, initial, bufferSize, wanted;
      processedInitial, tracker, wire := false, null, [];
    }

    ghost predicate Valid()
      reads this, tracker
    {
      && bufferSize > 0
      && (tracker != null <==> processedInitial && wanted)
      && (tracker != null ==> tracker.total == total && Sound(tracker.State()))
    }

    ghost function Reported(): int
      reads this, tracker
    {
      if tracker == null then 0 else Counted(tracker.State())
    }

    method Count(sent: nat)
      requires Valid() && tracker != null
      modifies tracker
      ensures Valid() && Reported() == old(Reported()) + sent
    {
      var now: real := *;
      ReportSound(tracker.State(), sent, now);
      tracker.Progress(sent, now);
    }

    /** The connection finds out at its first use how much was sent before it. */
    method CountInitial()
      requires Valid()
      modifies this`processedInitial, this`tracker
      ensures Valid() && processedInitial && (tracker == old(tracker) || fresh(tracker))
      ensures old(processedInitial) ==> tracker == old(tracker) && Reported() == old(Reported())
      ensures wanted && !old(processedInitial) ==> Reported() == initial
    {
      if !processedInitial {
        processedInitial := true;
        if wanted {
          var now: real := *;
          tracker := new ProgressCallbackWithTimeout(total, START_BYTES_PER_CALLBACK, TIMEOUT_SECONDS, now);
          Count(initial);
        }
      }
    }

    /** `send`, for data read in pieces of at most the buffer size; a file-like object may give less. */
    method Send(data: seq<byte>, metadata: nat)
      requires Valid()
      modifies this, tracker
      ensures Valid() && processedInitial && (tracker == old(tracker) || fresh(tracker))
      ensures wire == old(wire) + data
      ensures wanted ==>
        Reported() == (if old(processedInitial) then old(Reported()) else initial) + Payload(Message(data, metadata))
      ensures wanted && metadata <= |data| ==>
        Reported() == (if old(processedInitial) then old(Reported()) else initial) + |data| - metadata
      ensures wanted && metadata >= |data| ==>
        Reported() == if old(processedInitial) then old(Reported()) else initial
    {
      CountInitial();
      ghost var before := Reported();
      ghost var tr := tracker;
      var i, left := 0, metadata;
      while i < |data|
        invariant i <= |data| && Valid() && processedInitial && tracker == tr
        invariant wire == old(wire) + data[..i]
        invariant left == if metadata >= i then metadata - i else 0
        invariant wanted ==> Reported() == before + Payload(Message(data[..i], metadata))
      {
        var k: nat :| 1 <= k <= bufferSize && k <= |data| - i;
        wire := wire + data[i..i + k];
        var sent := k;
        if left != 0 {
          if left <= sent {
            sent, left := sent - left, 0;
          } else {
            left, sent := left - sent, 0;
          }
        }
        if tracker != null { Count(sent); }
        assert data[..i + k] == data[..i] + data[i..i + k];
        i := i + k;
      }
      assert data[..|data|] == data;
    }
  }

  /** Any sequence of sends on a new connection puts exactly the data on the wire and counts the initial
      bytes plus the payload: the data less its metadata, also when metadata spans several buffers. */
  method SendAll(c: UploadCallbackConnection, ms: seq<Message>)
    requires c.Valid() && !c.processedInitial && c.wire == [] && c.wanted && ms != []
    modifies c
    ensures c.Valid() && c.tracker != null && c.wire == Wire(ms)
    ensures Counted(c.tracker.State()) == c.initial + Payloads(ms)
    ensures
      var calls := c.tracker.calls;
      && NonDecreasing(calls)
      && (c.total.Some? && 0 < c.total.value <= c.initial + Payloads(ms) ==>
            calls != [] && calls[|calls| - 1] == c.total.value)
  {
    var i := 0;
    while i < |ms|
      invariant i <= |ms| && c.Valid() && c.processedInitial == (i > 0) && (c.tracker == null || fresh(c.tracker))
      invariant c.wire == Wire(ms[..i])
      invariant i > 0 ==> c.Reported() == c.initial + Payloads(ms[..i])
    {
      c.Send(ms[i].data, ms[i].metadata);
      MessagesSnoc(ms[..i], ms[i]);
      assert ms[..i + 1] == ms[..i] + [ms[i]];
      i := i + 1;
    }
    assert ms[..|ms|] == ms;
  }

  lemma {:induction false} MessagesSnoc(ms: seq<Message>, m: Message)
    ensures Payloads(ms + [m]) == Payloads(ms) + Payload(m)
    ensures Wire(ms + [m]) == Wire(ms) + m.data
  {
    if ms == [] {
      assert Wire([m]) == m.data + Wire([]) == m.data;
    } else {
      assert (ms + [m])[1..] == ms[1..] + [m];
      MessagesSnoc(ms[1..], m);
    }
  }
}
