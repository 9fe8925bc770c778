/** The daisy-chain wrapper as an object. Its lock blocks update the fields as the steps of `DaisyChain`
    do, and keep the invariant; between them the download thread may take any number of turns. */
module DaisyChainWrapper {
  import opened Sequences
  import opened Wrappers
  import opened DaisyChain
  import opened DaisyChainLiveness

  /** How `read` goes on: an empty string, BadRequestException, data left over, or the waiting loop. */
  datatype ReadStart = Nothing | BadSize | LeftOver(valid: seq<byte>) | Wait

  datatype ReadError = BadRequest | DownloadException

  class Wrapper {
    const cf: Config
    var position: nat
    var buffer: seq<seq<byte>>
    var bytesBuffered: int
    var lastPosition: nat
    var lastData: Option<seq<byte>>
    var unused: seq<byte>
    var stop: bool
    var failed: bool
    var download: Download
    ghost var upload: Upload
    ghost var head: nat

    constructor (cf: Config)
      requires ValidConfig(cf)
      ensures this.cf == cf && Valid() && upload.Ready? && position == 0
    {
      this.cf := cf;
      position, buffer, bytesBuffered := 0, [], 0;
      lastPosition, lastData, unused := 0, None, [];
      stop, failed := false, false;
      download, upload, head := Between(0), Ready, 0;
      new;
      assert SafeRun(cf, Init(), [], Init());
    }

    ghost function State(): Chain
      reads this
    {
      Chain(position, buffer, bytesBuffered, lastPosition, lastData, unused, stop, failed, download, upload, head)
    }

    /** Steps of the two threads, with supported seeks only, lead to the object's fields. */
    ghost predicate Valid()
      reads this
    {
      Reachable(cf, State())
    }

    /** The fields of the upload thread. */
    ghost function UploadSide(): (nat, nat, Option<seq<byte>>, seq<byte>, Upload, nat)
      reads this
    {
      (position, lastPosition, lastData, unused, upload, head)
    }

    // -------------------------------------------------------------------------
    // The download thread
    // -------------------------------------------------------------------------

    /** `BufferWrapper.write`: the block that looks for space. */
    method SeeSpace() returns (space: bool)
      requires Valid() && download.Space?
      modifies this`download
      ensures Valid() && State() == DaisyChain.SeeSpace(cf, old(State()))
      ensures space <==> |Pending(State())| < cf.maxBuffer
    {
      ghost var was := State();
      MemoryBounded(cf, was);
      assert Pending(DaisyChain.SeeSpace(cf, was)) == Pending(was);
      space := bytesBuffered < cf.maxBuffer;
      if space {
        download := Append(download.at, download.end, download.last, download.n);
      }
      ReachableStep(cf, was, DSpace);
    }

    /** `BufferWrapper.write`: the block that appends. The data goes behind all that is pending. */
    method AppendData(data: seq<byte>)
      requires Valid() && download.Append?
      requires data == Window(cf.source, download.at, download.at + download.n)
      modifies this`buffer, this`bytesBuffered, this`download
      ensures Valid() && State() == AppendChunk(cf, old(State()))
      ensures Pending(State()) == old(Pending(State())) + data
    {
      ghost var was := State();
      if |data| != 0 {
        buffer := buffer + [data];
        bytesBuffered := bytesBuffered + |data|;
        download := Sending(download.at + download.n, download.end, download.last);
      } else {
        download := Sending(download.at, download.end, download.last);
      }
      AppendFacts(cf, was);
      ReachableStep(cf, was, DAppend);
    }

    /** One turn of the download thread: to its next lock block, or to the next request. Whether the
        service fails, and how many bytes it gives to a write, is not known. A request asks for a chunk, or
        for what is left of the object; the thread obeys and clears `stop_download` between requests. */
    method DownloadTurn()
      requires Valid() && !download.Dead?
      modifies this`buffer, this`bytesBuffered, this`download, this`stop, this`failed
      ensures Valid()
      ensures exists step :: By(step) == Downloader && Productive(step) && Enabled(cf, old(State()), step) &&
                             State() == Next(cf, old(State()), step)
      ensures old(download).Between? ==>
        var at := old(download).at;
        download == Sending(at, Min(at + cf.chunk, |cf.source|), at + cf.chunk >= |cf.source|)
      ensures old(download).Tested? ==> !stop && download == if old(stop) then Dead else Between(old(download).at)
    {
      ghost var was := State();
      DownloadFacts(cf, was);
      ghost var step: Step;
      match download {
        case Between(at) =>
          step := DRequest;
          download := if at + cf.chunk < |cf.source| then Sending(at, at + cf.chunk, false) else Sending(at, |cf.source|, true);
          ReachableStep(cf, was, step);
        case Sending(at, end, last) =>
          var fails: bool := *;
          if fails {
            step := DFail;
            failed, download := true, Dead;
          } else if at == end {
            step := DFinish;
            download := if last then Dead else Tested(end);
          } else {
            var n: nat :| 1 <= n <= cf.transfer && at + n <= end;
            step := DWrite(n);
            download := Space(at, end, last, n);
          }
          ReachableStep(cf, was, step);
        case Space(_, _, _, _) =>
          step := DSpace;
          assert By(step) == Downloader && Productive(step) && Enabled(cf, was, step);
          var space := SeeSpace();
        case Append(at, _, _, n) =>
          step := DAppend;
          assert By(step) == Downloader && Productive(step) && Enabled(cf, was, step);
          AppendData(if at + n <= |cf.source| then cf.source[at..at + n] else []);
        case Tested(at) =>
          step := DTest;
          if stop {
            stop, download := false, Dead;
          } else {
            download := Between(at);
          }
          ReachableStep(cf, was, step);
      }
    }

    /** Any number of turns, and at least one if `must`. They touch nothing of the upload thread and only
        add to the deque; while the upload waits for this thread, they bring the end of the wait nearer. */
    method LetDownloadRun(must: bool)
      requires Valid() && (must ==> !download.Dead?)
      modifies this`buffer, this`bytesBuffered, this`download, this`stop, this`failed
      ensures Valid() && UploadSide() == old(UploadSide()) && old(buffer) <= buffer && (old(failed) ==> failed)
      ensures Waits(State()) ==> Distance(cf, State()) <= old(Distance(cf, State()))
      ensures must && Waits(State()) && old(Helpful(cf, State())) == Downloader ==>
        Distance(cf, State()) < old(Distance(cf, State()))
    {
      ghost var was := State();
      var turns: nat :| must ==> turns >= 1;
      ghost var first := true;
      while turns > 0 && !download.Dead?
        invariant Valid() && UploadSide() == old(UploadSide()) && old(buffer) <= buffer && (old(failed) ==> failed)
        invariant first ==> State() == was && (must ==> turns >= 1)
        invariant Waits(State()) ==> Distance(cf, State()) <= Distance(cf, was)
        invariant !first && Waits(State()) && Helpful(cf, was) == Downloader ==> Distance(cf, State()) < Distance(cf, was)
        decreases turns
      {
        ghost var before := State();
        DownloadTurn();
        TurnParts(cf, before, State());
        turns, first := turns - 1, false;
      }
    }

    // -------------------------------------------------------------------------
    // read
    // -------------------------------------------------------------------------

    /** `read`: the part before the waiting loop. */
    method StartReading(amt: nat) returns (r: ReadStart)
      requires Valid() && upload.Ready?
      modifies this`unused, this`upload
      ensures Valid() && State() == StartRead(cf, old(State()), amt)
      ensures r.Nothing? <==> position == |cf.source| || amt == 0
      ensures r.BadSize? <==> position != |cf.source| && amt > cf.transfer
      ensures r.Nothing? || r.BadSize? ==> State() == old(State())
      ensures r.LeftOver? ==> upload == Taking(amt, r.valid) && r.valid != []
      ensures r.LeftOver? ==> r.valid + unused == old(unused) && |r.valid| == Min(amt, |old(unused)|)
      ensures r.Wait? ==> upload == Reading(amt) && old(unused) == [] == unused
    {
      ghost var was := State();
      if position == |cf.source| || amt == 0 { return Nothing; }
      if amt > cf.transfer { return BadSize; }
      if unused != [] {
        var n := Min(amt, |unused|);
        r := LeftOver(unused[..n]);
        unused := unused[n..];
        upload := Taking(amt, r.valid);
      } else {
        r := Wait;
        upload := Reading(amt);
      }
      ReachableStep(cf, was, URead(amt));
    }

    /** `read`: one turn of the waiting loop; true ends it, an error is the download's exception, which
        comes only if nothing is buffered. If neither comes, it is the download thread's turn to bring data. */
    method PollBuffer() returns (r: Result<bool, ()>)
      requires Valid() && upload.Reading?
      modifies this`upload
      ensures Valid() && State() == PollRead(old(State()))
      ensures r.Err? <==> failed && buffer == []
      ensures r == Ok(true) <==> buffer != []
      ensures r.Err? ==> upload.Ready?
      ensures r == Ok(true) ==> upload == Taking(old(upload.amt), [])
      ensures r == Ok(false) ==> State() == old(State()) && !download.Dead? && Helpful(cf, State()) == Downloader
    {
      ghost var was := State();
      if buffer != [] {
        upload := Taking(upload.amt, []);
        r := Ok(true);
      } else if failed {
        upload := Ready;
        r := Err(());
      } else {
        r := Ok(false);
      }
      ReachableStep(cf, was, UPoll);
      if r == Ok(false) { PollFacts(cf, was); }
    }

    /** The waiting loop of `read`, while the download thread runs: it ends, with data in the deque, or
        because the download has failed and nothing is in the deque. */
    method WaitForData() returns (found: bool)
      requires Valid() && upload.Reading?
      modifies this`buffer, this`bytesBuffered, this`download, this`stop, this`failed, this`upload
      ensures Valid()
      ensures found ==> upload == Taking(old(upload.amt), []) && buffer != []
      ensures !found ==> failed && upload.Ready? && buffer == []
      ensures old(buffer) <= buffer
    {
      ghost var amt := upload.amt;
      while true
        invariant Valid() && upload == Reading(amt) && old(buffer) <= buffer
        decreases Distance(cf, State())
      {
        var polled := PollBuffer();
        if polled.Err? { return false; }
        if polled.value { return true; }
        LetDownloadRun(true);
      }
    }

    /** The data `read` takes: left over from the previous chunk, or the front of the first chunk. */
    method Pop(amt: nat, left: seq<byte>) returns (valid: seq<byte>)
      requires upload == Taking(amt, left) && (left == [] ==> buffer != [])
      modifies this`buffer, this`unused
      ensures valid == TakenData(old(State()))
      ensures left != [] ==> buffer == old(buffer) && unused == old(unused)
      ensures left == [] ==> buffer == old(buffer)[1..] && unused == old(buffer)[0][|valid|..]
    {
      valid := left;
      if |valid| == 0 {
        var data := buffer[0];
        buffer := buffer[1..];
        var n := if amt < |data| then amt else |data|;
        valid := data[..n];
        unused := data[n..];
      }
    }

    /** `read`: the last block. What it returns is the object's bytes at the position. */
    method Take(amt: nat, left: seq<byte>) returns (valid: seq<byte>)
      requires Valid() && upload == Taking(amt, left) && (left == [] ==> buffer != [])
      modifies this`position, this`buffer, this`bytesBuffered, this`lastPosition, this`lastData, this`unused,
               this`upload, this`head
      ensures Valid() && upload.Ready? && State() == TakeRead(old(State()))
      ensures 0 < |valid| <= amt
      ensures left != [] ==> valid == left && unused == old(unused)
      ensures left == [] ==> valid + unused == old(buffer)[0] && |valid| == Min(amt, |old(buffer)[0]|)
      ensures old(position) + |valid| == position <= |cf.source| && valid == cf.source[old(position)..position]
      ensures lastPosition == old(position) && lastData == Some(valid)
    {
      ghost var was := State();
      DeliveryExact(cf, was);
      valid := Pop(amt, left);
      lastPosition := position;
      lastData := Some(valid);
      position := position + |valid|;
      bytesBuffered := bytesBuffered - |valid|;
      upload, head := Ready, head + |valid|;
      assert State() == TakeRead(was);
      ReachableStep(cf, was, UTake);
    }

    /** `read`, while the download thread runs. It ends, and returns the object's bytes at the position, at
        least one unless the position is at the end or none were asked for: of what is left over if there
        is any, else of the first chunk. Only with nothing left over or buffered does it raise the
        download's exception, however long ago the download failed. */
    method Read(amt: nat) returns (r: Result<seq<byte>, ReadError>)
      requires Valid() && upload.Ready?
      modifies this
      ensures Valid() && upload.Ready?
      ensures r.Ok? ==> |r.value| <= amt && old(position) + |r.value| == position <= |cf.source|
      ensures r.Ok? ==> r.value == cf.source[old(position)..position]
      ensures r.Ok? && r.value == [] <==> old(position) == |cf.source| || amt == 0
      ensures r.Err? ==> position == old(position)
      ensures r == Err(BadRequest) <==> old(position) != |cf.source| && amt > cf.transfer
      ensures r == Err(DownloadException) ==> failed && buffer == old(buffer) == [] && unused == old(unused) == []
      ensures r.Ok? && r.value != [] && old(unused) != [] ==>
        r.value + unused == old(unused) && |r.value| == Min(amt, |old(unused)|)
      ensures r.Ok? && r.value != [] && old(unused) == [] && old(buffer) != [] ==>
        r.value + unused == old(buffer)[0] && |r.value| == Min(amt, |old(buffer)[0]|)
      ensures r.Ok? && 0 < |r.value| < amt ==> unused == []
    {
      PositionFacts(cf, State());
      var start := StartReading(amt);
      if start.Nothing? { return Ok([]); }
      if start.BadSize? { return Err(BadRequest); }
      LetDownloadRun(false);
      var left: seq<byte> := [];
      if start.LeftOver? {
        left := start.valid;
      } else {
        var found := WaitForData();
        if !found { return Err(DownloadException); }
        LetDownloadRun(false);
      }
      var data := Take(amt, left);
      return Ok(data);
    }

    // -------------------------------------------------------------------------
    // seek
    // -------------------------------------------------------------------------

    /** `seek(0, SEEK_END)`. */
    method SeekToEnd()
      requires Valid() && upload.Ready?
      modifies this`position, this`lastPosition, this`lastData
      ensures Valid() && position == |cf.source| && lastPosition == old(position)
      ensures SeekSafe(State(), old(position))
    {
      ghost var was := State();
      lastPosition := position;
      lastData := None;
      position := |cf.source|;
      SeekEndFacts(cf, was);
    }

    /** `seek(offset)`: the block that decides; `restart` is its local restart_download. */
    method SeekTo(offset: nat) returns (restart: bool)
      requires Valid() && upload.Ready? && offset <= |cf.source| && SeekSafe(State(), offset)
      modifies this`position, this`buffer, this`bytesBuffered, this`stop, this`upload, this`head
      ensures Valid() && State() == DaisyChain.Seek(old(State()), offset)
      ensures restart <==> offset != old(position) && offset != old(lastPosition)
      ensures restart ==> upload == Draining(offset, false)
      ensures !restart ==> upload.Ready? && position == offset
      ensures !restart && offset != old(position) ==> StreamsFrom(cf, State(), offset)
    {
      ghost var was := State();
      restart := false;
      if offset == position {
      } else if offset == lastPosition {
        position, head := lastPosition, offset;
        if lastData.Some? && |lastData.value| != 0 {
          buffer := [lastData.value] + buffer;
          bytesBuffered := bytesBuffered + |lastData.value|;
        }
      } else {
        restart := true;
        stop, upload := true, Draining(offset, false);
      }
      assert State() == DaisyChain.Seek(was, offset);
      SeekFacts(cf, was, offset);
    }

    /** `download_thread.is_alive()`. */
    method IsAlive() returns (alive: bool)
      requires Valid() && upload.Draining? && !upload.alive
      modifies this`upload
      ensures Valid() && upload == Draining(old(upload.offset), alive) && (alive <==> !download.Dead?)
      ensures Distance(cf, State()) <= old(Distance(cf, State()))
    {
      ghost var was := State();
      alive := !download.Dead?;
      if alive {
        upload := Draining(upload.offset, true);
        ReachableStep(cf, was, UAlive);
      }
    }

    /** One locked turn of the restart: chunks are dropped until the byte count is 0, also if the thread has
        died meanwhile. It never runs out of chunks, and leaves an empty deque. */
    method DrainBlock()
      requires Valid() && upload.Draining? && upload.alive
      modifies this`buffer, this`bytesBuffered, this`upload
      ensures Valid() && State() == Drain(old(State())) && buffer == [] && bytesBuffered == 0
      ensures upload == Draining(old(upload.offset), false)
    {
      ghost var was := State();
      DrainFacts(cf, was);
      while bytesBuffered != 0
        invariant DrainAll(buffer, bytesBuffered) == DrainAll(was.buffer, was.bytesBuffered) == Some(([], 0))
        invariant State() == was.(buffer := buffer, bytesBuffered := bytesBuffered)
        decreases |buffer|
      {
        bytesBuffered := bytesBuffered - |buffer[0]|;
        buffer := buffer[1..];
      }
      upload := Draining(upload.offset, false);
    }

    /** The block after the old download thread has died, and the start of the new one. That the old download
        had failed stays on record. */
    method RestartAt(offset: nat)
      requires Valid() && upload == Draining(offset, false) && download.Dead?
      modifies this
      ensures Valid() && upload.Ready? && State() == Restart(old(State()))
      ensures position == offset && Pending(State()) == [] && StreamsFrom(cf, State(), offset)
      ensures failed == old(failed)
    {
      ghost var was := State();
      position := offset;
      buffer := [];
      bytesBuffered := 0;
      lastPosition := 0;
      lastData := None;
      stop := false;
      download, upload, head := Between(offset), Ready, offset;
      assert State() == Restart(was);
      RestartFacts(cf, was);
    }

    /** The loop of a restart: it ends when the old download thread is seen dead. Between all its steps the
        thread may take turns, and die. */
    method StopDownload()
      requires Valid() && upload.Draining? && !upload.alive
      modifies this`buffer, this`bytesBuffered, this`download, this`stop, this`failed, this`upload
      ensures Valid() && upload == Draining(old(upload.offset), false) && download.Dead?
    {
      ghost var offset := upload.offset;
      LetDownloadRun(false);
      var alive := IsAlive();
      while alive
        invariant Valid() && upload == Draining(offset, alive) && (!alive ==> download.Dead?)
        decreases Distance(cf, State())
      {
        LetDownloadRun(false);
        ghost var was := State();
        DrainBlock();
        DrainHelps(cf, was);
        LetDownloadRun(!download.Dead?);
        alive := IsAlive();
      }
    }

    /** `seek(offset)`, while the download thread runs: it ends at the offset, also when the download has to
        be stopped and restarted there. */
    method SeekAbsolute(offset: nat)
      requires Valid() && upload.Ready? && offset <= |cf.source| && SeekSafe(State(), offset)
      modifies this
      ensures Valid() && upload.Ready? && position == offset
    {
      var restart := SeekTo(offset);
      if restart {
        StopDownload();
        RestartAt(offset);
      }
    }

    /** Finding the size: to the end and back, while the download thread runs, then reading on. What comes is
        the rest of the object from where the reader was. */
    method SizeThenRest(amt: nat) returns (size: nat, r: Result<seq<byte>, ReadError>)
      requires Valid() && upload.Ready? && 0 < amt <= cf.transfer
      modifies this
      ensures Valid() && upload.Ready?
      ensures size == |cf.source|
      ensures r.Ok? ==> old(position) <= |cf.source| && r.value == cf.source[old(position)..]
      ensures r.Err? ==> failed
    {
      PositionFacts(cf, State());
      var back := position;
      SeekToEnd();
      size := position;
      LetDownloadRun(false);
      SeekAbsolute(back);
      LetDownloadRun(false);
      r := ReadRest(amt);
    }

    /** Reading on until nothing more comes gives exactly the rest of the object. */
    method ReadRest(amt: nat) returns (r: Result<seq<byte>, ReadError>)
      requires Valid() && upload.Ready? && 0 < amt <= cf.transfer && position <= |cf.source|
      modifies this
      ensures Valid() && upload.Ready?
      ensures r.Ok? ==> r.value == cf.source[old(position)..] && position == |cf.source|
      ensures r.Err? ==> failed
    {
      var all := [];
      while true
        invariant Valid() && upload.Ready? && old(position) <= position <= |cf.source|
        invariant all == cf.source[old(position)..position]
        decreases |cf.source| - position
      {
        var more := Read(amt);
        if more.Err? {
          assert more.error.DownloadException?;
          return more;
        }
        if more.value == [] { return Ok(all); }
        all := all + more.value;
      }
    }
  }

  // ---------------------------------------------------------------------------
  // What the methods need to know of a reachable state
  // ---------------------------------------------------------------------------

  lemma AppendFacts(cf: Config, c: Chain)
    requires Reachable(cf, c) && c.download.Append?
    ensures Pending(AppendChunk(cf, c)) == Pending(c) + Window(cf.source, c.download.at, c.download.at + c.download.n)
  {
    ReachableInv(cf, c);
    AppendPending(cf, c);
  }

  lemma DownloadFacts(cf: Config, c: Chain)
    requires Reachable(cf, c)
    ensures ValidConfig(cf) && DownloadOk(cf, c.download)
  {
    ReachableInv(cf, c);
  }

  lemma PositionFacts(cf: Config, c: Chain)
    requires Reachable(cf, c) && c.upload.Ready?
    ensures c.position <= |cf.source|
  {
    ReachableInv(cf, c);
  }

  lemma PollFacts(cf: Config, c: Chain)
    requires Reachable(cf, c) && c.upload.Reading? && c.buffer == [] && !c.failed
    ensures !c.download.Dead? && Helpful(cf, c) == Downloader
  {
    ReachableInv(cf, c);
    if c.download.Dead? { DeadMeansUploader(cf, c); }
  }

  lemma DrainFacts(cf: Config, c: Chain)
    requires Reachable(cf, c) && c.upload.Draining? && c.upload.alive
    ensures DrainAll(c.buffer, c.bytesBuffered) == Some(([], 0)) && Reachable(cf, Drain(c))
  {
    ReachableInv(cf, c);
    DrainedAll(c.buffer, c.bytesBuffered);
    ReachableStep(cf, c, UDrain);
  }

  lemma DrainHelps(cf: Config, c: Chain)
    requires Reachable(cf, c) && c.upload.Draining? && c.upload.alive
    ensures Distance(cf, Drain(c)) <= Distance(cf, c)
    ensures c.download.Dead? ==> Distance(cf, Drain(c)) < Distance(cf, c)
    ensures !c.download.Dead? ==> Helpful(cf, Drain(c)) == Downloader
  {
    ReachableInv(cf, c);
    DrainKeeps(cf, c);
  }

  lemma SeekEndFacts(cf: Config, c: Chain)
    requires Reachable(cf, c) && c.upload.Ready?
    ensures Reachable(cf, SeekEnd(cf, c)) && SeekSafe(SeekEnd(cf, c), c.position)
  {
    ReachableInv(cf, c);
    ReachableStep(cf, c, USeekEnd);
  }

  lemma SeekFacts(cf: Config, c: Chain, offset: nat)
    requires Reachable(cf, c) && c.upload.Ready? && offset <= |cf.source| && SeekSafe(c, offset)
    ensures Reachable(cf, DaisyChain.Seek(c, offset))
    ensures offset == c.lastPosition != c.position ==> StreamsFrom(cf, DaisyChain.Seek(c, offset), offset)
  {
    ReachableStep(cf, c, USeek(offset));
    if offset == c.lastPosition != c.position {
      ReachableInv(cf, c);
      RewindStreams(cf, c);
    }
  }

  lemma RestartFacts(cf: Config, c: Chain)
    requires Reachable(cf, c) && Enabled(cf, c, URestart)
    ensures
      var c' := Restart(c);
      Reachable(cf, c') && Pending(c') == [] && StreamsFrom(cf, c', c.upload.offset)
  {
    RestartIsClean(cf, c);
    ReachableStep(cf, c, URestart);
  }

  lemma TurnFrame(cf: Config, c: Chain, step: Step)
    requires By(step) == Downloader && Enabled(cf, c, step)
    ensures
      var c' := Next(cf, c, step);
      && c'.position == c.position && c'.lastPosition == c.lastPosition && c'.lastData == c.lastData
      && c'.unused == c.unused && c'.upload == c.upload && c'.head == c.head && c.buffer <= c'.buffer
      && (c.failed ==> c'.failed)
  {
  }

  lemma TurnParts(cf: Config, c: Chain, c': Chain)
    requires Reachable(cf, c)
    requires exists step :: By(step) == Downloader && Productive(step) && Enabled(cf, c, step) && c' == Next(cf, c, step)
    ensures c'.position == c.position && c'.lastPosition == c.lastPosition && c'.lastData == c.lastData
    ensures c'.unused == c.unused && c'.upload == c.upload && c'.head == c.head && c.buffer <= c'.buffer
    ensures c.failed ==> c'.failed
    ensures Waits(c) ==> Distance(cf, c') <= Distance(cf, c)
    ensures Waits(c) && Helpful(cf, c) == Downloader ==> Distance(cf, c') < Distance(cf, c)
  {
    var step :| By(step) == Downloader && Productive(step) && Enabled(cf, c, step) && c' == Next(cf, c, step);
    TurnFrame(cf, c, step);
    ReachableInv(cf, c);
    if Waits(c) { StepHelps(cf, c, step); }
  }
}
