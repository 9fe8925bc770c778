/** The buffer of a daisy-chain copy as a state machine: a download thread writes, the upload reads,
    rewinds by one read, goes to the end and back, or restarts the download somewhere else. Each block
    under the wrapper's lock is one step. */
module DaisyChain {
  import opened Sequences
  import opened Wrappers

  /** The object copied and the limits of the copy: `maxBuffer` is 1 MiB, `transfer` is the largest
      read and write, `chunk` is what one download request asks for. */
  datatype Config = Config(source: seq<byte>, maxBuffer: nat, transfer: nat, chunk: nat)

  ghost predicate ValidConfig(cf: Config) { cf.maxBuffer > 0 && cf.transfer > 0 && cf.chunk > 0 }

  const MAX_BUFFER_SIZE: nat := 1024 * 1024
  const LARGEST_TRANSFER_BUFFER_SIZE: nat := 64 * 1024

  /** PerformDownload and the write it may be in. `at` is the next byte it will write. */
  datatype Download =
    | Between(at: nat)                                // about to make a request
    | Sending(at: nat, end: nat, last: bool)          // inside GetObjectMedia, bytes at..end to come
    | Space(at: nat, end: nat, last: bool, n: nat)    // write: waits until there is space
    | Append(at: nat, end: nat, last: bool, n: nat)   // write: has seen space
    | Tested(at: nat)                                 // a request is done, about to test stop_download
    | Dead

  /** What the upload thread is doing. */
  datatype Upload =
    | Ready
    | Reading(amt: nat)                        // read: waits for data
    | Taking(amt: nat, valid: seq<byte>)       // read: about to take data; valid is from an earlier chunk
    | Draining(offset: nat, alive: bool)       // seek: waits for the old download thread to die; alive if it was at
                                               // the last look, so that the buffer is drained before the next
    | Crashed                                  // popleft from an empty deque

  /** `head` is history: the source position of the first byte the reader would be given. */
  datatype Chain = Chain(
    position: nat,
    buffer: seq<seq<byte>>,
    bytesBuffered: int,
    lastPosition: nat,
    lastData: Option<seq<byte>>,
    unused: seq<byte>,
    stop: bool,
    failed: bool,
    download: Download,
    upload: Upload,
    head: nat)

  function Init(): Chain {
    Chain(0, [], 0, 0, None, [], false, false, Between(0), Ready, 0)
  }

  /** Bytes from..to of the object, as far as they exist. */
  function Window(source: seq<byte>, from: nat, to: nat): (w: seq<byte>)
    ensures from <= to <= |source| ==> |w| == to - from
  {
    if from <= to <= |source| then source[from..to] else []
  }

  // ---------------------------------------------------------------------------
  // The download thread
  // ---------------------------------------------------------------------------

  /** A request for one chunk, or for the rest of the object. */
  function Request(cf: Config, c: Chain): Chain
    requires c.download.Between?
  {
    var at := c.download.at;
    if at + cf.chunk < |cf.source| then c.(download := Sending(at, at + cf.chunk, false))
    else c.(download := Sending(at, |cf.source|, true))
  }

  /** GetObjectMedia calls `write` with its next `n` bytes. */
  function StartWrite(c: Chain, n: nat): Chain
    requires c.download.Sending?
  {
    var Sending(at, end, last) := c.download;
    c.(download := Space(at, end, last, n))
  }

  /** First block of `write`: go on if there is space. */
  function SeeSpace(cf: Config, c: Chain): Chain
    requires c.download.Space?
  {
    var Space(at, end, last, n) := c.download;
    if c.bytesBuffered < cf.maxBuffer then c.(download := Append(at, end, last, n)) else c
  }

  /** Second block of `write`. */
  function AppendChunk(cf: Config, c: Chain): Chain
    requires c.download.Append?
  {
    var Append(at, end, last, n) := c.download;
    var data := Window(cf.source, at, at + n);
    if data == [] then c.(download := Sending(at, end, last))
    else c.(buffer := c.buffer + [data], bytesBuffered := c.bytesBuffered + |data|, download := Sending(at + n, end, last))
  }

  function Finish(c: Chain): Chain
    requires c.download.Sending?
  {
    c.(download := if c.download.last then Dead else Tested(c.download.end))
  }

  function TestStop(c: Chain): Chain
    requires c.download.Tested?
  {
    if c.stop then c.(stop := false, download := Dead) else c.(download := Between(c.download.at))
  }

  function Fail(c: Chain): Chain { c.(failed := true, download := Dead) }

  // ---------------------------------------------------------------------------
  // The upload thread
  // ---------------------------------------------------------------------------

  /** `read` up to its first block: nothing to do, data left over, or data to wait for. */
  function StartRead(cf: Config, c: Chain, amt: nat): Chain {
    if c.position == |cf.source| || amt == 0 || amt > cf.transfer then c
    else if c.unused != [] then
      var n := Min(amt, |c.unused|);
      c.(unused := c.unused[n..], upload := Taking(amt, c.unused[..n]))
    else c.(upload := Reading(amt))
  }

  /** One turn of the waiting loop of `read`; a saved download exception is raised. */
  function PollRead(c: Chain): Chain
    requires c.upload.Reading?
  {
    if c.buffer != [] then c.(upload := Taking(c.upload.amt, []))
    else if c.failed then c.(upload := Ready)
    else c
  }

  /** The data the last block of `read` returns. */
  function TakenData(c: Chain): seq<byte>
    requires c.upload.Taking? && (c.upload.valid == [] ==> c.buffer != [])
  {
    if c.upload.valid != [] then c.upload.valid else c.buffer[0][..Min(c.upload.amt, |c.buffer[0]|)]
  }

  /** The last block of `read`. */
  function TakeRead(c: Chain): Chain
    requires c.upload.Taking? && (c.upload.valid == [] ==> c.buffer != [])
  {
    var data := TakenData(c);
    var c' := if c.upload.valid != [] then c
              else c.(buffer := c.buffer[1..], unused := c.buffer[0][|data|..]);
    c'.(lastPosition := c.position, lastData := Some(data), position := c.position + |data|,
        bytesBuffered := c.bytesBuffered - |data|, upload := Ready, head := c.head + |data|)
  }

  function SeekEnd(cf: Config, c: Chain): Chain {
    c.(lastPosition := c.position, lastData := None, position := |cf.source|)
  }

  /** The block of `seek(offset)`: stay, rewind by one read, or start to restart the download. */
  function Seek(c: Chain, offset: nat): Chain {
    if offset == c.position then c
    else if offset == c.lastPosition then
      var c' := c.(position := c.lastPosition, head := offset);
      if c.lastData.Some? && c.lastData.value != [] then
        c'.(buffer := [c.lastData.value] + c.buffer, bytesBuffered := c.bytesBuffered + |c.lastData.value|)
      else c'
    else c.(upload := Draining(offset, false), stop := true)
  }

  /** Discards chunks until `bytesBuffered` is 0, as the inner loop of the restart does. */
  function DrainAll(buffer: seq<seq<byte>>, bytes: int): Option<(seq<seq<byte>>, int)> {
    if bytes == 0 then Some((buffer, bytes))
    else if buffer == [] then None
    else DrainAll(buffer[1..], bytes - |buffer[0]|)
  }

  /** One locked turn of the restart, after the old download thread was seen alive. */
  function Drain(c: Chain): Chain
    requires c.upload.Draining?
  {
    match DrainAll(c.buffer, c.bytesBuffered)
    case None => c.(upload := Crashed)
    case Some((buffer, bytes)) =>
      c.(buffer := buffer, bytesBuffered := bytes, upload := Draining(c.upload.offset, false))
  }

  /** The old thread was seen dead: everything is reset and a new one started. */
  function Restart(c: Chain): Chain
    requires c.upload.Draining?
  {
    var offset := c.upload.offset;
    c.(position := offset, buffer := [], bytesBuffered := 0, lastPosition := 0, lastData := None,
       stop := false, download := Between(offset), upload := Ready, head := offset)
  }

  // ---------------------------------------------------------------------------
  // Steps and runs
  // ---------------------------------------------------------------------------

  datatype Step =
    | DRequest | DWrite(n: nat) | DSpace | DAppend | DFinish | DTest | DFail
    | URead(amt: nat) | UPoll | UTake | USeekEnd | USeek(offset: nat) | UAlive | UDrain | URestart

  predicate Enabled(cf: Config, c: Chain, step: Step) {
    match step
    case DRequest => c.download.Between?
    case DWrite(n) => c.download.Sending? && n <= cf.transfer && c.download.at + n <= c.download.end
    case DSpace => c.download.Space?
    case DAppend => c.download.Append?
    case DFinish => c.download.Sending? && c.download.at == c.download.end
    case DTest => c.download.Tested?
    case DFail => c.download.Sending?
    case URead(_) => c.upload.Ready?
    case UPoll => c.upload.Reading?
    case UTake => c.upload.Taking? && (c.upload.valid == [] ==> c.buffer != [])
    case USeekEnd => c.upload.Ready?
    case USeek(_) => c.upload.Ready?
    case UAlive => c.upload.Draining? && !c.upload.alive && !c.download.Dead?
    case UDrain => c.upload.Draining? && c.upload.alive
    case URestart => c.upload.Draining? && !c.upload.alive && c.download.Dead?
  }

  function Next(cf: Config, c: Chain, step: Step): Chain
    requires Enabled(cf, c, step)
  {
    match step
    case DRequest => Request(cf, c)
    case DWrite(n) => StartWrite(c, n)
    case DSpace => SeeSpace(cf, c)
    case DAppend => AppendChunk(cf, c)
    case DFinish => Finish(c)
    case DTest => TestStop(c)
    case DFail => Fail(c)
    case URead(amt) => StartRead(cf, c, amt)
    case UPoll => PollRead(c)
    case UTake => TakeRead(c)
    case USeekEnd => SeekEnd(cf, c)
    case USeek(offset) => Seek(c, offset)
    case UAlive => c.(upload := c.upload.(alive := true))
    case UDrain => Drain(c)
    case URestart => Restart(c)
  }

  // ---------------------------------------------------------------------------
  // The invariant
  // ---------------------------------------------------------------------------

  /** The bytes taken from the download and not yet given to the upload, in order. */
  function Pending(c: Chain): seq<byte> {
    (if c.upload.Taking? then c.upload.valid else []) + c.unused + Concat(c.buffer)
  }

  function At(d: Download): nat
    requires !d.Dead?
  {
    d.at
  }

  predicate RequestOk(cf: Config, at: nat, end: nat, last: bool) {
    at <= end <= |cf.source| && (last <==> end == |cf.source|)
  }

  predicate DownloadOk(cf: Config, d: Download) {
    match d
    case Between(at) => at <= |cf.source|
    case Sending(at, end, last) => RequestOk(cf, at, end, last)
    case Space(at, end, last, n) => at + n <= end && n <= cf.transfer && RequestOk(cf, at, end, last)
    case Append(at, end, last, n) => at + n <= end && n <= cf.transfer && RequestOk(cf, at, end, last)
    case Tested(at) => at < |cf.source|
    case Dead => true
  }

  /** The upload sees the object from `from` on: what is pending, and what the download will add. */
  predicate StreamsFrom(cf: Config, c: Chain, from: nat) {
    var to := from + |Pending(c)|;
    && to <= |cf.source| && Pending(c) == Window(cf.source, from, to)
    && (if c.download.Dead? then c.failed || to == |cf.source| else At(c.download) == to)
  }

  /** The position is where the stream is, or at the end with the stream's position remembered or not. */
  predicate PositionOk(cf: Config, c: Chain) {
    || (c.position == c.head &&
        match c.lastData {
          case Some(x) => c.lastPosition == c.position ||
                          (c.lastPosition + |x| == c.position && x == Window(cf.source, c.lastPosition, c.position))
          case None => true
        })
    || (c.position == |cf.source| && c.lastData.None? && (c.lastPosition == c.head || c.lastPosition == |cf.source|))
  }

  /** What one rewind would push back. */
  function Credit(c: Chain): nat {
    if !c.upload.Draining? && c.lastPosition != c.position && c.lastData.Some? then |c.lastData.value| else 0
  }

  predicate Bounded(cf: Config, c: Chain) {
    && c.bytesBuffered + Credit(c) <= cf.maxBuffer - 1 + 2 * cf.transfer
    && (c.download.Append? ==> c.bytesBuffered + Credit(c) <= cf.maxBuffer - 1 + cf.transfer)
    && (c.lastData.Some? ==> |c.lastData.value| <= cf.transfer)
  }

  /** What is pending is counted, and bounded. */
  predicate CountOk(cf: Config, c: Chain) {
    DownloadOk(cf, c.download) && c.bytesBuffered == |Pending(c)| && NoEmptyChunk(c.buffer) && Bounded(cf, c)
  }

  /** What the upload thread relies on where it is. */
  predicate UploadOk(cf: Config, c: Chain) {
    && !c.upload.Crashed?
    && (c.upload.Draining? ==> c.unused == [] && c.upload.offset <= |cf.source| && (c.stop || c.download.Dead?))
    && (!c.upload.Draining? ==> !c.stop && PositionOk(cf, c))
    && (c.upload.Reading? ==> c.position == c.head < |cf.source| && c.unused == [] && 0 < c.upload.amt <= cf.transfer)
    && (c.upload.Taking? ==>
          c.position == c.head < |cf.source| && 0 < c.upload.amt <= cf.transfer &&
          (if c.upload.valid == [] then c.buffer != [] && c.unused == [] else |c.upload.valid| <= c.upload.amt))
  }

  ghost predicate Inv(cf: Config, c: Chain) {
    CountOk(cf, c) && UploadOk(cf, c) && (!c.upload.Draining? ==> StreamsFrom(cf, c, c.head))
  }

  /** The seeks the wrapper supports: a rewind that pushes data back, and a restart, need the previous
      chunk to be used up; and a rewind without data must go to where the stream is. */
  predicate SeekSafe(c: Chain, offset: nat) {
    if offset == c.position then true
    else if offset == c.lastPosition then (if c.lastData.Some? then c.unused == [] else c.head == offset)
    else c.unused == []
  }

  predicate StepSafe(cf: Config, c: Chain, step: Step) {
    step.USeek? ==> step.offset <= |cf.source| && SeekSafe(c, step.offset)
  }

  lemma InitInv(cf: Config)
    requires ValidConfig(cf)
    ensures Inv(cf, Init())
  {
  }

  // ---------------------------------------------------------------------------
  // Every safe step keeps the invariant
  // ---------------------------------------------------------------------------

  lemma WindowCat(source: seq<byte>, a: nat, b: nat, c: nat)
    requires a <= b <= c <= |source|
    ensures Window(source, a, b) + Window(source, b, c) == Window(source, a, c)
  {
  }

  lemma WindowSplit(source: seq<byte>, from: nat, p: seq<byte>, q: seq<byte>)
    requires from + |p| + |q| <= |source| && p + q == Window(source, from, from + |p| + |q|)
    ensures p == Window(source, from, from + |p|)
    ensures q == Window(source, from + |p|, from + |p| + |q|)
  {
    assert p == (p + q)[..|p|] && q == (p + q)[|p|..];
  }

  lemma AppendPending(cf: Config, c: Chain)
    requires c.download.Append? && DownloadOk(cf, c.download)
    ensures
      var data := Window(cf.source, c.download.at, c.download.at + c.download.n);
      Pending(AppendChunk(cf, c)) == Pending(c) + data && |data| == c.download.n
  {
    var data := Window(cf.source, c.download.at, c.download.at + c.download.n);
    if data != [] {
      ConcatSnoc(c.buffer, data);
    }
    var rest := (if c.upload.Taking? then c.upload.valid else []) + c.unused;
    assert Pending(c) == rest + Concat(c.buffer);
    assert (rest + Concat(c.buffer)) + data == rest + (Concat(c.buffer) + data);
  }

  lemma AppendStreams(cf: Config, c: Chain)
    requires c.download.Append? && DownloadOk(cf, c.download) && StreamsFrom(cf, c, c.head)
    ensures StreamsFrom(cf, AppendChunk(cf, c), c.head)
  {
    var at, n := c.download.at, c.download.n;
    AppendPending(cf, c);
    assert Pending(c) == Window(cf.source, c.head, at);
    WindowCat(cf.source, c.head, at, at + n);
    assert Pending(AppendChunk(cf, c)) == Window(cf.source, c.head, at + n);
  }

  lemma AppendCounts(cf: Config, c: Chain)
    requires ValidConfig(cf) && CountOk(cf, c) && c.download.Append?
    ensures CountOk(cf, AppendChunk(cf, c))
  {
    AppendPending(cf, c);
  }

  lemma AppendUpload(cf: Config, c: Chain)
    requires UploadOk(cf, c) && c.download.Append?
    ensures UploadOk(cf, AppendChunk(cf, c))
  {
  }

  lemma AppendKeeps(cf: Config, c: Chain)
    requires ValidConfig(cf) && Inv(cf, c) && c.download.Append?
    ensures Inv(cf, AppendChunk(cf, c))
  {
    AppendCounts(cf, c);
    AppendUpload(cf, c);
    if !c.upload.Draining? { AppendStreams(cf, c); }
  }

  /** The data left over from an earlier chunk, or its front, becomes what `read` returns. */
  lemma StartReadPending(cf: Config, c: Chain, amt: nat)
    requires c.upload.Ready?
    ensures Pending(StartRead(cf, c, amt)) == Pending(c)
  {
    var c' := StartRead(cf, c, amt);
    if c'.upload.Taking? { assert c'.upload.valid + c'.unused == c.unused; }
  }

  lemma StartReadUpload(cf: Config, c: Chain, amt: nat)
    requires UploadOk(cf, c) && StreamsFrom(cf, c, c.head) && c.upload.Ready?
    ensures UploadOk(cf, StartRead(cf, c, amt))
  {
    assert c.position != |cf.source| ==> c.position == c.head < |cf.source|;
  }

  lemma StartReadKeeps(cf: Config, c: Chain, amt: nat)
    requires ValidConfig(cf) && Inv(cf, c) && c.upload.Ready?
    ensures Inv(cf, StartRead(cf, c, amt))
  {
    StartReadPending(cf, c, amt);
    StartReadUpload(cf, c, amt);
  }

  /** What `read` takes is the front of what is pending. */
  lemma TakePending(c: Chain)
    requires c.upload.Taking? && (c.upload.valid == [] ==> c.buffer != [] && c.unused == [])
    ensures Pending(c) == TakenData(c) + Pending(TakeRead(c))
  {
    var data, c' := TakenData(c), TakeRead(c);
    if c.upload.valid == [] {
      assert c.buffer[0] == data + c'.unused;
      assert Pending(c) == Concat(c.buffer) == c.buffer[0] + Concat(c.buffer[1..]);
    }
  }

  /** The data taken is not empty, and no more than asked for. */
  lemma TakenSize(cf: Config, c: Chain)
    requires UploadOk(cf, c) && NoEmptyChunk(c.buffer) && c.upload.Taking?
    ensures 0 < |TakenData(c)| <= c.upload.amt
  {
  }

  lemma TakeStreams(cf: Config, c: Chain)
    requires c.upload.Taking? && (c.upload.valid == [] ==> c.buffer != [] && c.unused == [])
    requires StreamsFrom(cf, c, c.head)
    ensures
      var end := c.head + |TakenData(c)|;
      end <= |cf.source| && TakenData(c) == Window(cf.source, c.head, end) && StreamsFrom(cf, TakeRead(c), end)
  {
    TakePending(c);
    WindowSplit(cf.source, c.head, TakenData(c), Pending(TakeRead(c)));
  }

  lemma TakeDelivers(cf: Config, c: Chain)
    requires UploadOk(cf, c) && NoEmptyChunk(c.buffer) && c.upload.Taking? && StreamsFrom(cf, c, c.head)
    ensures
      var data := TakenData(c);
      && 0 < |data| <= c.upload.amt
      && c.position + |data| <= |cf.source|
      && data == Window(cf.source, c.position, c.position + |data|)
    ensures StreamsFrom(cf, TakeRead(c), TakeRead(c).head)
  {
    TakenSize(cf, c);
    TakeStreams(cf, c);
  }

  lemma TakeKeeps(cf: Config, c: Chain)
    requires ValidConfig(cf) && Inv(cf, c) && c.upload.Taking?
    ensures Inv(cf, TakeRead(c))
  {
    TakePending(c);
    TakeDelivers(cf, c);
    var c' := TakeRead(c);
    assert NoEmptyChunk(c'.buffer);
  }

  /** A rewind pushes back what the last read returned. */
  lemma RewindStreams(cf: Config, c: Chain)
    requires Inv(cf, c) && c.upload.Ready? && c.lastPosition != c.position && SeekSafe(c, c.lastPosition)
    ensures
      var c' := Seek(c, c.lastPosition);
      && StreamsFrom(cf, c', c.lastPosition)
      && |Pending(c')| == |Pending(c)| + Credit(c)
  {
    var c' := Seek(c, c.lastPosition);
    if c.lastData.Some? {
      var x := c.lastData.value;
      assert Pending(c') == x + Pending(c);
      WindowCat(cf.source, c.lastPosition, c.position, c.position + |Pending(c)|);
    } else {
      assert Pending(c') == Pending(c);
    }
  }

  lemma SeekKeeps(cf: Config, c: Chain, offset: nat)
    requires ValidConfig(cf) && Inv(cf, c) && c.upload.Ready? && offset <= |cf.source| && SeekSafe(c, offset)
    ensures Inv(cf, Seek(c, offset))
  {
    if offset != c.position && offset == c.lastPosition { RewindStreams(cf, c); }
  }

  lemma {:induction false} DrainedAll(buffer: seq<seq<byte>>, bytes: int)
    requires NoEmptyChunk(buffer)
    ensures DrainAll(buffer, bytes) == Some(([], 0)) <==> bytes == |Concat(buffer)|
    ensures bytes > |Concat(buffer)| ==> DrainAll(buffer, bytes).None?
  {
    if bytes != 0 && buffer != [] { DrainedAll(buffer[1..], bytes - |buffer[0]|); }
  }

  lemma DrainKeeps(cf: Config, c: Chain)
    requires ValidConfig(cf) && Inv(cf, c) && c.upload.Draining?
    ensures Inv(cf, Drain(c)) && Drain(c).bytesBuffered == 0
  {
    DrainedAll(c.buffer, c.bytesBuffered);
  }

  /** The download thread moves on without touching the buffer. */
  lemma DownloadMoves(cf: Config, c: Chain, d: Download)
    requires ValidConfig(cf) && Inv(cf, c) && DownloadOk(cf, d)
    requires if d.Dead? then c.failed || (!c.download.Dead? && At(c.download) == |cf.source|)
             else !c.download.Dead? && At(d) == At(c.download)
    requires d.Append? && !c.download.Append? ==> c.bytesBuffered < cf.maxBuffer
    ensures Inv(cf, c.(download := d))
  {
    assert Pending(c.(download := d)) == Pending(c);
  }

  lemma DownloadKeeps(cf: Config, c: Chain, step: Step)
    requires ValidConfig(cf) && Inv(cf, c) && Enabled(cf, c, step)
    requires step.DRequest? || step.DWrite? || step.DSpace? || step.DFinish?
    ensures Inv(cf, Next(cf, c, step))
  {
    if step.DRequest? {
      DownloadMoves(cf, c, Request(cf, c).download);
    } else if step.DWrite? {
      DownloadMoves(cf, c, StartWrite(c, step.n).download);
    } else if step.DSpace? {
      DownloadMoves(cf, c, SeeSpace(cf, c).download);
    } else {
      DownloadMoves(cf, c, Finish(c).download);
    }
  }

  /** The thread dies with an exception, or because it was told to stop. */
  lemma DownloadEnds(cf: Config, c: Chain, step: Step)
    requires ValidConfig(cf) && Inv(cf, c) && Enabled(cf, c, step) && (step.DTest? || step.DFail?)
    ensures Inv(cf, Next(cf, c, step))
  {
    if step.DTest? && !c.stop {
      DownloadMoves(cf, c, Next(cf, c, step).download);
    } else {
      assert Pending(Next(cf, c, step)) == Pending(c);
    }
  }

  lemma PollKeeps(cf: Config, c: Chain)
    requires ValidConfig(cf) && Inv(cf, c) && c.upload.Reading?
    ensures Inv(cf, PollRead(c))
  {
    assert Pending(PollRead(c)) == Pending(c);
  }

  lemma SeekEndKeeps(cf: Config, c: Chain)
    requires ValidConfig(cf) && Inv(cf, c) && c.upload.Ready?
    ensures Inv(cf, SeekEnd(cf, c))
  {
    assert Pending(SeekEnd(cf, c)) == Pending(c);
  }

  lemma RestartKeeps(cf: Config, c: Chain)
    requires ValidConfig(cf) && Inv(cf, c) && c.upload.Draining?
    ensures Inv(cf, Restart(c)) && Pending(Restart(c)) == []
  {
  }

  lemma StepKeeps(cf: Config, c: Chain, step: Step)
    requires ValidConfig(cf) && Inv(cf, c) && Enabled(cf, c, step) && StepSafe(cf, c, step)
    ensures Inv(cf, Next(cf, c, step))
  {
    match step
    case DAppend => AppendKeeps(cf, c);
    case URead(amt) => StartReadKeeps(cf, c, amt);
    case UTake => TakeKeeps(cf, c);
    case USeek(offset) => SeekKeeps(cf, c, offset);
    case UAlive => assert Pending(Next(cf, c, step)) == Pending(c);
    case UDrain => DrainKeeps(cf, c);
    case UPoll => PollKeeps(cf, c);
    case USeekEnd => SeekEndKeeps(cf, c);
    case URestart => RestartKeeps(cf, c);
    case DTest => DownloadEnds(cf, c, step);
    case DFail => DownloadEnds(cf, c, step);
    case _ => DownloadKeeps(cf, c, step);
  }

  // ---------------------------------------------------------------------------
  // Whole runs
  // ---------------------------------------------------------------------------

  /** `c'` is reached from `c` by steps of both threads in any order, all seeks being supported ones. */
  predicate SafeRun(cf: Config, c: Chain, steps: seq<Step>, c': Chain)
    decreases |steps|
  {
    if steps == [] then c' == c
    else Enabled(cf, c, steps[0]) && StepSafe(cf, c, steps[0]) && SafeRun(cf, Next(cf, c, steps[0]), steps[1..], c')
  }

  lemma {:induction false} RunKeeps(cf: Config, c: Chain, steps: seq<Step>, c': Chain)
    requires ValidConfig(cf) && Inv(cf, c) && SafeRun(cf, c, steps, c')
    ensures Inv(cf, c')
    decreases |steps|
  {
    if steps != [] {
      StepKeeps(cf, c, steps[0]);
      RunKeeps(cf, Next(cf, c, steps[0]), steps[1..], c');
    }
  }

  ghost predicate Reachable(cf: Config, c: Chain) {
    ValidConfig(cf) && exists steps :: SafeRun(cf, Init(), steps, c)
  }

  lemma ReachableInv(cf: Config, c: Chain)
    requires Reachable(cf, c)
    ensures Inv(cf, c)
  {
    var steps :| SafeRun(cf, Init(), steps, c);
    InitInv(cf);
    RunKeeps(cf, Init(), steps, c);
  }

  lemma {:induction false} RunSnoc(cf: Config, c: Chain, steps: seq<Step>, c': Chain, step: Step)
    requires SafeRun(cf, c, steps, c') && Enabled(cf, c', step) && StepSafe(cf, c', step)
    ensures SafeRun(cf, c, steps + [step], Next(cf, c', step))
    decreases |steps|
  {
    if steps == [] {
      assert SafeRun(cf, Next(cf, c', step), [step][1..], Next(cf, c', step));
    } else {
      assert (steps + [step])[1..] == steps[1..] + [step];
      RunSnoc(cf, Next(cf, c, steps[0]), steps[1..], c', step);
    }
  }

  lemma ReachableStep(cf: Config, c: Chain, step: Step)
    requires Reachable(cf, c) && Enabled(cf, c, step) && StepSafe(cf, c, step)
    ensures Reachable(cf, Next(cf, c, step))
  {
    var steps :| SafeRun(cf, Init(), steps, c);
    RunSnoc(cf, Init(), steps, c, step);
  }

  /** A read that returns data at position p returns the object's bytes from p on, at least one and no
      more than asked for, whatever was rewound or restarted before. */
  lemma DeliveryExact(cf: Config, c: Chain)
    requires Reachable(cf, c) && c.upload.Taking?
    ensures Enabled(cf, c, UTake)
    ensures
      var data := TakenData(c);
      && 0 < |data| <= c.upload.amt
      && c.position + |data| <= |cf.source|
      && data == cf.source[c.position..c.position + |data|]
      && TakeRead(c).position == c.position + |data|
  {
    ReachableInv(cf, c);
    TakeDelivers(cf, c);
  }

  /** The byte count is exact, and memory is bounded although the space check and the append are
      separate blocks and a rewind may come between them. */
  lemma MemoryBounded(cf: Config, c: Chain)
    requires Reachable(cf, c)
    ensures c.bytesBuffered == |Pending(c)| <= cf.maxBuffer - 1 + 2 * cf.transfer
  {
    ReachableInv(cf, c);
  }

  /** With the sizes the wrapper uses, on every platform, that is less than 1.125 MiB. */
  lemma MemoryOfWrapper(cf: Config, c: Chain)
    requires Reachable(cf, c) && cf.maxBuffer == MAX_BUFFER_SIZE && cf.transfer <= LARGEST_TRANSFER_BUFFER_SIZE
    ensures |Pending(c)| < MAX_BUFFER_SIZE + MAX_BUFFER_SIZE / 8
  {
    MemoryBounded(cf, c);
  }

  /** When the old thread is dead, a restart leaves none of its bytes, and the new thread starts where
      the upload goes on. */
  lemma RestartIsClean(cf: Config, c: Chain)
    requires Reachable(cf, c) && Enabled(cf, c, URestart)
    ensures
      var c' := Restart(c);
      Pending(c') == [] && c'.bytesBuffered == 0 && c'.position == c.upload.offset && StreamsFrom(cf, c', c'.position)
  {
    ReachableInv(cf, c);
  }

  /** A failed download is never forgotten, not even by a restart: from then on a read that waits raises
      its exception if and only if nothing is buffered. */
  lemma {:induction false} FailureStays(cf: Config, c: Chain, steps: seq<Step>, c': Chain)
    requires c.failed && SafeRun(cf, c, steps, c')
    ensures c'.failed
    ensures c'.upload.Reading? ==> PollRead(c').upload == if c'.buffer == [] then Ready else Taking(c'.upload.amt, [])
    decreases |steps|
  {
    if steps != [] { FailureStays(cf, Next(cf, c, steps[0]), steps[1..], c'); }
  }

  function Requests(steps: seq<Step>): nat {
    if steps == [] then 0 else (if steps[0].DRequest? then 1 else 0) + Requests(steps[1..])
  }

  /** From when a restart asks the old download thread to stop until the new one is started, the old one
      finishes the request it is in, and makes another only if it had already decided to. */
  lemma {:induction false} OneRequestAtMost(cf: Config, c: Chain, steps: seq<Step>, c': Chain)
    requires ValidConfig(cf) && Inv(cf, c) && c.upload.Draining? && SafeRun(cf, c, steps, c')
    requires URestart !in steps
    ensures Requests(steps) <= if c.download.Between? then 1 else 0
    decreases |steps|
  {
    if steps != [] {
      assert steps[0] in steps;
      StepKeeps(cf, c, steps[0]);
      var next := Next(cf, c, steps[0]);
      StaysDraining(cf, c, steps[0]);
      assert URestart !in steps[1..];
      OneRequestAtMost(cf, next, steps[1..], c');
    }
  }

  lemma StaysDraining(cf: Config, c: Chain, step: Step)
    requires ValidConfig(cf) && Inv(cf, c) && c.upload.Draining? && Enabled(cf, c, step) && !step.URestart?
    ensures
      var next := Next(cf, c, step);
      next.upload.Draining? && (next.download.Between? ==> c.download.Between? && !step.DRequest?)
  {
    if step.UDrain? { DrainKeeps(cf, c); }
  }

  // ---------------------------------------------------------------------------
  // Why the seeks must be supported ones
  // ---------------------------------------------------------------------------

  /** Every byte stands for the place it comes from, so that bytes in the wrong place can be told. */
  ghost predicate Distinct(source: seq<byte>) {
    forall i, j :: 0 <= i < j < |source| ==> source[i] != source[j]
  }

  /** The download has failed, and all it had sent is used up: whatever the position, the next read raises. */
  predicate NothingToCome(c: Chain) { c.failed && c.download.Dead? && Pending(c) == [] }

  /** Pushing data back in front of what is left over of a chunk puts the next byte in the wrong place. */
  lemma RewindMisplaces(cf: Config, c: Chain)
    requires Inv(cf, c) && c.upload.Ready? && Distinct(cf.source)
    requires c.lastPosition != c.position && c.lastData.Some? && c.unused != []
    ensures !StreamsFrom(cf, Seek(c, c.lastPosition), c.lastPosition)
  {
    var c' := Seek(c, c.lastPosition);
    assert Pending(c)[0] == c.unused[0] == cf.source[c.head];
    assert Pending(c')[0] == c.unused[0];
  }

  /** A rewind without data leaves what is pending as it is. */
  lemma RewindPretends(cf: Config, c: Chain)
    requires Inv(cf, c) && c.upload.Ready? && Distinct(cf.source)
    requires c.lastPosition != c.position && c.lastPosition <= |cf.source| && c.lastData.None? && c.lastPosition != c.head
    ensures StreamsFrom(cf, Seek(c, c.lastPosition), c.lastPosition) <==> NothingToCome(c)
  {
    assert Pending(Seek(c, c.lastPosition)) == Pending(c);
    if Pending(c) != [] {
      assert Pending(c)[0] == cf.source[c.head];
      assert c.lastPosition < |cf.source| ==> Window(cf.source, c.lastPosition, |cf.source|)[0] == cf.source[c.lastPosition];
    }
  }

  /** A rewind leaves the upload a correct stream if and only if it is a supported one, or nothing is to
      come: rewinding while part of a chunk is left over puts the bytes out of order, and `seek(0)` right
      after a restart elsewhere pretends that the stream starts at 0. */
  lemma RewindExact(cf: Config, c: Chain)
    requires Inv(cf, c) && c.upload.Ready? && Distinct(cf.source)
    requires c.lastPosition != c.position && c.lastPosition <= |cf.source|
    ensures StreamsFrom(cf, Seek(c, c.lastPosition), c.lastPosition) <==>
            SeekSafe(c, c.lastPosition) || NothingToCome(c)
  {
    if SeekSafe(c, c.lastPosition) {
      RewindStreams(cf, c);
    } else if c.lastData.Some? {
      RewindMisplaces(cf, c);
    } else {
      RewindPretends(cf, c);
    }
  }

  /** A restart works if and only if no part of a chunk is left over: otherwise the drain runs out of
      chunks and crashes, or the left-over bytes stay without being counted. */
  lemma RestartExact(cf: Config, c: Chain, offset: nat)
    requires Inv(cf, c) && c.upload.Ready? && offset != c.position && offset != c.lastPosition
    ensures
      var c' := Seek(c, offset);
      && c'.upload == Draining(offset, false)
      && (Drain(c').upload.Crashed? <==> !SeekSafe(c, offset))
      && (Restart(c').bytesBuffered == |Pending(Restart(c'))| <==> SeekSafe(c, offset))
  {
    DrainedAll(c.buffer, c.bytesBuffered);
  }
}
