/** The retry loops of the JSON API: resumable download, resumable upload and object rewrite. The
    service may fail at any step. */
module JsonTransfer {
  import opened Sequences
  import opened Wrappers
  import Progress

  /** Transfer exceptions are retried; every other exception leaves the function at once. */
  datatype Failure = TooManyRetries | OtherException

  datatype Attempt = Completed | TransferException | Fatal

  /** An attempt to download from `start` on, how it ended, and how long the stream was then. */
  datatype Try = Try(start: nat, outcome: Attempt, length: nat)

  // ---------------------------------------------------------------------------
  // Download
  // ---------------------------------------------------------------------------

  /** The service: an attempt appends the object's bytes from its start byte on, all that were asked for
      or, before it fails, any number of them. `tries` is history. */
  class Source {
    const content: seq<byte>
    ghost var tries: seq<Try>

    constructor (content: seq<byte>)
      ensures this.content == content && tries == []
    {
      this.content, tries := content, [];
    }

    method PerformDownload(stream: DownloadStream, start: nat) returns (a: Attempt)
      requires start <= |content|
      modifies stream, this`tries
      ensures tries == old(tries) + [Try(start, a, |stream.data|)]
      ensures
        var q := start + |stream.data| - |old(stream.data)|;
        && start <= q <= |content| && stream.data == old(stream.data) + content[start..q]
        && (a.Completed? ==> q == |content|)
    {
      var completes: bool := *;
      if completes {
        stream.data := stream.data + content[start..|content|];
        tries := tries + [Try(start, Completed, |stream.data|)];
        return Completed;
      }
      var q: nat :| start <= q <= |content|;
      stream.data := stream.data + content[start..q];
      var retryable: bool := *;
      a := if retryable then TransferException else Fatal;
      tries := tries + [Try(start, a, |stream.data|)];
    }
  }

  class DownloadStream {
    var data: seq<byte>

    constructor (data: seq<byte>)
      ensures this.data == data
    {
      this.data := data;
    }

    function Tell(): nat
      reads this
    {
      |data|
    }
  }

  /** The most attempts a download can take: the retry count starts again, at one, whenever bytes arrived. */
  function MaxAttempts(unconfirmed: nat, numRetries: nat): (n: nat)
    ensures n > numRetries
  {
    if unconfirmed == 0 then numRetries + 1 else MaxAttempts(unconfirmed - 1, numRetries) + numRetries
  }

  /** That is the number of retries for each byte and once more, and the first attempt. */
  lemma {:induction false} MaxAttemptsExact(unconfirmed: nat, numRetries: nat)
    ensures MaxAttempts(unconfirmed, numRetries) == numRetries * (unconfirmed + 1) + 1
    ensures MaxAttempts(unconfirmed, numRetries) <= (numRetries + 1) * (unconfirmed + 1)
  {
    assert (numRetries + 1) * (unconfirmed + 1) == numRetries * (unconfirmed + 1) + unconfirmed + 1;
    if unconfirmed != 0 {
      MaxAttemptsExact(unconfirmed - 1, numRetries);
      assert numRetries * (unconfirmed + 1) == numRetries * unconfirmed + numRetries;
    }
  }

  lemma {:induction false} AttemptsStep(p: nat, q: nat, numRetries: nat)
    requires p < q
    ensures MaxAttempts(p, numRetries) + numRetries <= MaxAttempts(q, numRetries)
  {
    if q > p + 1 { AttemptsStep(p, q - 1, numRetries); }
  }

  /** The last `n` entries are there, and equal. */
  predicate Stuck(lengths: seq<nat>, n: nat) {
    n <= |lengths| && forall k :: |lengths| - n <= k < |lengths| ==> lengths[k] == lengths[|lengths| - 1]
  }

  /** The tries of one download: each after the first goes on where the stream ended, and all but the last
      ended with a transfer exception. */
  predicate Resumes(tries: seq<Try>, start: nat) {
    forall k :: 0 <= k < |tries| ==> ResumesAt(tries, start, k)
  }

  predicate ResumesAt(tries: seq<Try>, start: nat, k: nat)
    requires k < |tries|
  {
    && tries[k].start == (if k == 0 then start else tries[k - 1].length)
    && (k < |tries| - 1 ==> tries[k].outcome.TransferException?)
  }

  /** `_PerformResumableDownload` of a range whose last byte is the last of `source`, resumed at `start`;
      `lengths` are the stream's lengths after each transfer exception, and `tries` what the service was
      asked. It succeeds if and only if an attempt completes, raises what is no transfer exception at once,
      and goes on after every other failure until it gives up. Whatever the stream held before
      `start`, it then holds the object's bytes up to some point, and after success up to the end; so a
      download that is started or resumed behind the object's first bytes ends with the whole object. It
      gives up exactly when `numRetries + 1` failures in a row left the stream as it was. */
  method PerformResumableDownload(source: Source, stream: DownloadStream, start: nat, numRetries: nat)
    returns (r: Result<(), Failure>, lengths: seq<nat>, transferred: Option<nat>, ghost tries: seq<Try>)
    requires start <= |source.content| && |stream.data| == start
    modifies stream, source`tries
    ensures source.tries == old(source.tries) + tries && tries != [] && Resumes(tries, start)
    ensures r.Ok? <==> tries[|tries| - 1].outcome.Completed?
    ensures r == Err(OtherException) <==> tries[|tries| - 1].outcome.Fatal?
    ensures |lengths| == |tries| - (if r == Err(TooManyRetries) then 0 else 1)
    ensures forall k :: 0 <= k < |lengths| ==> lengths[k] == tries[k].length
    ensures start <= |stream.data| <= |source.content|
    ensures stream.data == old(stream.data) + source.content[start..|stream.data|]
    ensures r.Ok? ==> stream.data == old(stream.data) + source.content[start..]
    ensures r.Ok? && old(stream.data) == source.content[..start] ==> stream.data == source.content
    ensures |lengths| + (if r == Err(TooManyRetries) then 0 else 1) <= MaxAttempts(|source.content| - start, numRetries)
    ensures r == Err(TooManyRetries) <==> Stuck(lengths, numRetries + 1)
    ensures forall n :: 0 <= n < |lengths| ==> !Stuck(lengths[..n], numRetries + 1)
    ensures transferred == if lengths == [] then None else Some(lengths[|lengths| - 1])
    ensures r == Err(TooManyRetries) ==> transferred == Some(|stream.data|)
  {
    ghost var content := source.content;
    var startByte, lastProgress, retries := start, start, 0;
    lengths, transferred, tries := [], None, [];
    while retries <= numRetries
      invariant source.tries == old(source.tries) + tries && TriesOf(tries, start, lengths)
      invariant lastProgress == startByte == |stream.data| && retries <= numRetries
      invariant Delivered(old(stream.data), content, stream.data)
      invariant transferred == if lengths == [] then None else Some(startByte)
      invariant GoingOn(lengths, retries, start, startByte, |content|, numRetries)
      decreases |content| - lastProgress, numRetries - retries
    {
      GoingFacts(lengths, retries, start, startByte, |content|, numRetries);
      ghost var had := stream.data;
      var a := source.PerformDownload(stream, startByte);
      TriesNext(tries, start, lengths, Try(startByte, a, |stream.data|));
      tries := tries + [Try(startByte, a, |stream.data|)];
      DeliveredMore(old(stream.data), content, had, |stream.data|);
      if a.Completed? { return Ok(()), lengths, transferred, tries; }
      if a.Fatal? { return Err(OtherException), lengths, transferred, tries; }
      startByte := stream.Tell();
      transferred := Some(startByte);
      GoingNext(lengths, retries, start, lastProgress, startByte, |content|, numRetries);
      lengths := lengths + [startByte];
      if startByte > lastProgress {
        lastProgress := startByte;
        retries := 0;
      }
      retries := retries + 1;
      if retries > numRetries { return Err(TooManyRetries), lengths, transferred, tries; }
    }
  }

  /** The tries so far, all of which failed with a transfer exception. */
  ghost predicate TriesOf(tries: seq<Try>, start: nat, lengths: seq<nat>) {
    && Resumes(tries, start) && |tries| == |lengths|
    && forall k :: 0 <= k < |tries| ==> tries[k].outcome.TransferException? && tries[k].length == lengths[k]
  }

  lemma TriesNext(tries: seq<Try>, start: nat, lengths: seq<nat>, next: Try)
    requires TriesOf(tries, start, lengths) && next.start == if lengths == [] then start else lengths[|lengths| - 1]
    ensures Resumes(tries + [next], start)
    ensures next.outcome.TransferException? ==> TriesOf(tries + [next], start, lengths + [next.length])
  {
    var after := tries + [next];
    forall k | 0 <= k < |after|
      ensures ResumesAt(after, start, k)
    {
      if k < |tries| { assert ResumesAt(tries, start, k); }
    }
  }

  /** The stream holds what it held before, then the object's bytes from there on. */
  ghost predicate Delivered(before: seq<byte>, content: seq<byte>, data: seq<byte>) {
    |before| <= |data| <= |content| && data == before + content[|before|..|data|]
  }

  lemma DeliveredMore(before: seq<byte>, content: seq<byte>, data: seq<byte>, q: nat)
    requires Delivered(before, content, data) && |data| <= q <= |content|
    ensures
      var now := data + content[|data|..q];
      && |now| == q && Delivered(before, content, now)
      && (q == |content| ==> now == before + content[|before|..])
      && (q == |content| && before == content[..|before|] ==> now == content)
  {
  }

  /** The loop's account: the failures since the stream last grew are counted, and it has not given up. */
  ghost predicate GoingOn(lengths: seq<nat>, retries: nat, start: nat, now: nat, end: nat, numRetries: nat) {
    && CountsStuck(lengths, retries, start)
    && start <= now == (if lengths == [] then start else lengths[|lengths| - 1]) && now <= end
    && (forall n :: 0 <= n <= |lengths| ==> !Stuck(lengths[..n], numRetries + 1))
    && |lengths| + MaxAttempts(end - now, numRetries) <= MaxAttempts(end - start, numRetries) + retries
  }

  lemma GoingFacts(lengths: seq<nat>, retries: nat, start: nat, now: nat, end: nat, numRetries: nat)
    requires GoingOn(lengths, retries, start, now, end, numRetries) && retries <= numRetries
    ensures !Stuck(lengths, numRetries + 1)
    ensures |lengths| + 1 <= MaxAttempts(end - start, numRetries)
    ensures forall n :: 0 <= n < |lengths| ==> !Stuck(lengths[..n], numRetries + 1)
  {
    assert lengths[..|lengths|] == lengths;
  }

  /** One more failure. */
  lemma GoingNext(lengths: seq<nat>, retries: nat, start: nat, now: nat, next: nat, end: nat, numRetries: nat)
    requires GoingOn(lengths, retries, start, now, end, numRetries) && retries <= numRetries && now <= next <= end
    ensures
      var after, r := lengths + [next], if next > now then 1 else retries + 1;
      && (Stuck(after, numRetries + 1) <==> r > numRetries)
      && (forall n :: 0 <= n < |after| ==> !Stuck(after[..n], numRetries + 1))
      && (r <= numRetries ==> GoingOn(after, r, start, next, end, numRetries))
  {
    var after, r := lengths + [next], if next > now then 1 else retries + 1;
    CountsStuckNext(lengths, retries, start, next);
    StuckIffCount(after, r, start, numRetries + 1);
    assert forall n :: 0 <= n <= |lengths| ==> after[..n] == lengths[..n];
    assert after[..|after|] == after;
    if next > now { AttemptsStep(end - next, end - now, numRetries); }
  }

  /** `retries` is the number of failures since the stream last grew, with the one after which it had. */
  predicate CountsStuck(lengths: seq<nat>, retries: nat, start: nat) {
    && retries <= |lengths| && (retries == 0 ==> lengths == [])
    && Stuck(lengths, retries)
    && (retries < |lengths| ==> lengths[|lengths| - retries - 1] < lengths[|lengths| - 1])
    && (lengths != [] && retries == |lengths| ==> lengths[0] >= start)
  }

  lemma CountsStuckNext(lengths: seq<nat>, retries: nat, start: nat, now: nat)
    requires CountsStuck(lengths, retries, start)
    requires now >= if lengths == [] then start else lengths[|lengths| - 1]
    ensures
      var last := if lengths == [] then start else lengths[|lengths| - 1];
      CountsStuck(lengths + [now], if now > last then 1 else retries + 1, start)
  {
  }

  lemma StuckIffCount(lengths: seq<nat>, retries: nat, start: nat, n: nat)
    requires CountsStuck(lengths, retries, start) && n > 0
    ensures Stuck(lengths, n) <==> n <= retries
  {
  }

  // ---------------------------------------------------------------------------
  // Upload
  // ---------------------------------------------------------------------------

  datatype Refresh = Refreshed | RefreshException | RefreshFatal

  /** A call of the upload object, how it ended, and for a refresh how much the service then said it has. */
  datatype Call = Streamed(outcome: Attempt) | Asked(answer: Refresh, progress: nat)

  /** apitools' upload object: `progress` is the number of bytes the service last said it has. Nothing is
      assumed of it but that it is within the file. `calls` is history. */
  class ApitoolsUpload {
    const size: nat
    var progress: nat
    ghost var calls: seq<Call>

    constructor (size: nat, progress: nat)
      requires progress <= size
      ensures this.size == size && this.progress == progress && calls == []
    {
      this.size, this.progress, calls := size, progress, [];
    }

    /** StreamMedia or StreamInChunks. */
    method Stream() returns (a: Attempt)
      requires progress <= size
      modifies this
      ensures progress <= size && calls == old(calls) + [Streamed(a)]
    {
      var confirmed: nat :| 0 <= confirmed <= size;
      progress := confirmed;
      var completes: bool, retryable: bool := *, *;
      a := if completes then Completed else if retryable then TransferException else Fatal;
      calls := calls + [Streamed(a)];
    }

    method RefreshResumableUploadState() returns (f: Refresh)
      requires progress <= size
      modifies this
      ensures progress <= size && calls == old(calls) + [Asked(f, progress)]
    {
      var confirmed: nat :| 0 <= confirmed <= size;
      progress := confirmed;
      var answers: bool, retryable: bool := *, *;
      f := if answers then Refreshed else if retryable then RefreshException else RefreshFatal;
      calls := calls + [Asked(f, progress)];
    }
  }

  /** What goes wrong: an attempt fails and the service then says how much it has, or does not say. */
  datatype UploadFailure = AttemptFailed(confirmed: nat) | RefreshFailed

  /** The most the service ever said it has. */
  function Confirmed(first: nat, log: seq<UploadFailure>): nat {
    if log == [] then first
    else
      var before, last := Confirmed(first, log[..|log| - 1]), log[|log| - 1];
      if last.AttemptFailed? && last.confirmed > before then last.confirmed else before
  }

  /** The failures since the service last said it has more than ever before. */
  function Fruitless(first: nat, log: seq<UploadFailure>): nat {
    if log == [] || Confirmed(first, log) > Confirmed(first, log[..|log| - 1]) then 0
    else Fruitless(first, log[..|log| - 1]) + 1
  }

  lemma LogSnoc(first: nat, log: seq<UploadFailure>, x: UploadFailure)
    ensures
      var c := Confirmed(first, log);
      var progress := x.AttemptFailed? && x.confirmed > c;
      && Confirmed(first, log + [x]) == (if progress then x.confirmed else c)
      && Fruitless(first, log + [x]) == (if progress then 0 else Fruitless(first, log) + 1)
  {
    assert (log + [x])[..|log|] == log;
  }

  lemma {:induction false} ConfirmedGrows(first: nat, log: seq<UploadFailure>, n: nat)
    requires n <= |log|
    ensures Confirmed(first, log[..n]) <= Confirmed(first, log)
    decreases |log|
  {
    if n < |log| {
      assert log[..|log| - 1][..n] == log[..n];
      ConfirmedGrows(first, log[..|log| - 1], n);
    } else {
      assert log[..n] == log;
    }
  }

  /** There are `n` fruitless failures in a row exactly when the last `n` left the most that was ever
      confirmed as it was. */
  lemma {:induction false} FruitlessExact(first: nat, log: seq<UploadFailure>, n: nat)
    ensures Fruitless(first, log) >= n <==>
      n <= |log| && Confirmed(first, log[..|log| - n]) == Confirmed(first, log)
    decreases |log|
  {
    if n == 0 {
      assert log[..|log|] == log;
    } else if log != [] {
      var front := log[..|log| - 1];
      FruitlessExact(first, front, n - 1);
      if n <= |log| {
        assert front[..|front| - (n - 1)] == log[..|log| - n];
        ConfirmedGrows(first, front, |log| - n);
        ConfirmedGrows(first, log, |log| - 1);
      }
    }
  }

  /** The loop has not given up before. */
  ghost predicate Patient(first: nat, log: seq<UploadFailure>, numRetries: nat) {
    forall n :: 0 <= n < |log| ==> Fruitless(first, log[..n]) <= numRetries
  }

  lemma PatientSnoc(first: nat, log: seq<UploadFailure>, x: UploadFailure, numRetries: nat)
    requires Patient(first, log, numRetries) && Fruitless(first, log) <= numRetries
    ensures Patient(first, log + [x], numRetries)
  {
    assert forall n :: 0 <= n <= |log| ==> (log + [x])[..n] == log[..n];
    assert log[..|log|] == log;
  }

  /** Confirmed is the larger of where the upload started and the largest number the service reported. */
  lemma {:induction false} ConfirmedExact(first: nat, log: seq<UploadFailure>)
    ensures Confirmed(first, log) >= first
    ensures forall k :: 0 <= k < |log| && log[k].AttemptFailed? ==> log[k].confirmed <= Confirmed(first, log)
    ensures Confirmed(first, log) == first || AttemptFailed(Confirmed(first, log)) in log
  {
    if log != [] { ConfirmedExact(first, log[..|log| - 1]); }
  }

  /** The calls of an upload: first the file is streamed, then after a transfer exception the service is
      asked until it answers, and after its answer the file is streamed again. All calls but the last are
      such as to go on. */
  predicate Proceeds(calls: seq<Call>) {
    forall k :: 0 <= k < |calls| ==> ProceedsAt(calls, k)
  }

  predicate ProceedsAt(calls: seq<Call>, k: nat)
    requires k < |calls|
  {
    && (calls[k].Streamed? <==> k == 0 || (calls[k - 1].Asked? && calls[k - 1].answer.Refreshed?))
    && (k < |calls| - 1 ==> !Final(calls[k]))
  }

  /** Nothing is done after such a call. */
  predicate Final(call: Call) {
    match call
    case Streamed(outcome) => !outcome.TransferException?
    case Asked(answer, _) => answer.RefreshFatal?
  }

  /** What went wrong, as the calls tell. */
  function Failures(calls: seq<Call>): seq<UploadFailure> {
    if calls == [] then []
    else
      var before, last := Failures(calls[..|calls| - 1]), calls[|calls| - 1];
      match last
      case Streamed(_) => before
      case Asked(answer, progress) =>
        match answer
        case Refreshed => before + [AttemptFailed(progress)]
        case RefreshException => before + [RefreshFailed]
        case RefreshFatal => before
  }

  /** How much the service said it has when it last answered. */
  function Answered(first: nat, calls: seq<Call>): nat {
    if calls == [] then first
    else
      var last := calls[|calls| - 1];
      if last.Asked? && last.answer.Refreshed? then last.progress else Answered(first, calls[..|calls| - 1])
  }

  /** The calls so far, and what is known from them; `stream` tells whether the next is to stream. */
  ghost predicate CallsOf(calls: seq<Call>, first: nat, log: seq<UploadFailure>, transferred: nat, stream: bool) {
    && Proceeds(calls) && log == Failures(calls) && transferred == Answered(first, calls)
    && (stream <==> calls == [] || (calls[|calls| - 1].Asked? && calls[|calls| - 1].answer.Refreshed?))
    && (calls != [] ==> !Final(calls[|calls| - 1]))
  }

  /** One more call. */
  lemma CallsNext(calls: seq<Call>, first: nat, log: seq<UploadFailure>, transferred: nat, next: Call)
    requires CallsOf(calls, first, log, transferred, next.Streamed?)
    ensures
      var after, answered := calls + [next], next.Asked? && next.answer.Refreshed?;
      var log' := log + (if answered then [AttemptFailed(next.progress)]
                         else if next.Asked? && next.answer.RefreshException? then [RefreshFailed] else []);
      var transferred' := if answered then next.progress else transferred;
      && Proceeds(after) && log' == Failures(after) && transferred' == Answered(first, after)
      && (!Final(next) ==> CallsOf(after, first, log', transferred', answered))
  {
    var after := calls + [next];
    assert after[..|calls|] == calls;
    forall k | 0 <= k < |after|
      ensures ProceedsAt(after, k)
    {
      if k < |calls| { assert ProceedsAt(calls, k); }
    }
  }

  /** The account of the upload's loops: `last` is the most that was confirmed, `retries` the failures since. */
  ghost predicate UploadGoesOn(first: nat, log: seq<UploadFailure>, last: nat, retries: nat, size: nat, numRetries: nat) {
    && first <= last <= size && last == Confirmed(first, log)
    && retries == Fruitless(first, log) <= numRetries && Patient(first, log, numRetries)
    && |log| + MaxAttempts(size - last, numRetries + 1) <= MaxAttempts(size - first, numRetries + 1) + retries
  }

  /** One more failure. */
  lemma UploadNext(first: nat, log: seq<UploadFailure>, last: nat, retries: nat, size: nat, numRetries: nat, x: UploadFailure)
    requires UploadGoesOn(first, log, last, retries, size, numRetries) && (x.AttemptFailed? ==> x.confirmed <= size)
    ensures
      var progress := x.AttemptFailed? && x.confirmed > last;
      var last', r := if progress then x.confirmed else last, if progress then 0 else retries + 1;
      && Fruitless(first, log + [x]) == r && Patient(first, log + [x], numRetries)
      && |log + [x]| < MaxAttempts(size - first, numRetries + 1)
      && (r <= numRetries ==> UploadGoesOn(first, log + [x], last', r, size, numRetries))
  {
    LogSnoc(first, log, x);
    PatientSnoc(first, log, x, numRetries);
    if x.AttemptFailed? && x.confirmed > last { AttemptsStep(size - x.confirmed, size - last, numRetries + 1); }
  }

  /** The retry loop of `_PerformResumableUpload` and the loop nested in it; `log` is what went wrong, and
      `upload.calls` is what was asked of the upload object, which is new. It succeeds if and only if the file is streamed
      completely, and raises at once what is no transfer exception. For
      every behaviour of the service it ends, `startByte` is set whenever it is read, and it gives up
      exactly when `numRetries + 1` failures in a row, of attempts and of refreshes, brought no progress:
      so there are at most `numRetries + 1` failures for each byte of progress and once more. */
  method PerformResumableUpload(upload: ApitoolsUpload, numRetries: nat)
    returns (r: Result<(), Failure>, log: seq<UploadFailure>, transferred: nat)
    requires upload.progress <= upload.size && upload.calls == []
    modifies upload
    ensures upload.calls != [] && Proceeds(upload.calls)
    ensures
      var last := upload.calls[|upload.calls| - 1];
      && (r.Ok? <==> last == Streamed(Completed))
      && (r == Err(OtherException) <==> last == Streamed(Fatal) || (last.Asked? && last.answer.RefreshFatal?))
    ensures log == Failures(upload.calls) && transferred == Answered(old(upload.progress), upload.calls)
    ensures r == Err(TooManyRetries) <==> Fruitless(old(upload.progress), log) > numRetries
    ensures Patient(old(upload.progress), log, numRetries)
    ensures |log| < MaxAttempts(upload.size - old(upload.progress), numRetries + 1)
  {
    transferred, log := upload.progress, [];
    var retries, lastProgress, startByte := 0, upload.progress, None;
    ghost var first := upload.progress;
    while retries <= numRetries
      invariant upload.progress <= upload.size
      invariant UploadGoesOn(first, log, lastProgress, retries, upload.size, numRetries)
      invariant startByte.Some? ==> startByte.value <= upload.size
      invariant CallsOf(upload.calls, first, log, transferred, true)
      decreases upload.size - lastProgress, numRetries - retries
    {
      ghost var before := upload.calls;
      var a := upload.Stream();
      CallsNext(before, first, log, transferred, Streamed(a));
      if a.Completed? { return Ok(()), log, transferred; }
      if a.Fatal? { return Err(OtherException), log, transferred; }
      ghost var outer := retries;
      while retries <= numRetries
        invariant upload.progress <= upload.size && outer <= retries
        invariant UploadGoesOn(first, log, lastProgress, retries, upload.size, numRetries)
        invariant startByte.Some? ==> startByte.value <= upload.size
        invariant CallsOf(upload.calls, first, log, transferred, false)
        decreases numRetries - retries
      {
        ghost var asked := upload.calls;
        var f := upload.RefreshResumableUploadState();
        CallsNext(asked, first, log, transferred, Asked(f, upload.progress));
        if f.Refreshed? {
          startByte := Some(upload.progress);
          transferred := upload.progress;
          break;
        }
        if f.RefreshFatal? { return Err(OtherException), log, transferred; }
        UploadNext(first, log, lastProgress, retries, upload.size, numRetries, RefreshFailed);
        log, retries := log + [RefreshFailed], retries + 1;
        if retries > numRetries { return Err(TooManyRetries), log, transferred; }
      }
      UploadNext(first, log, lastProgress, retries, upload.size, numRetries, AttemptFailed(startByte.value));
      log := log + [AttemptFailed(startByte.value)];
      if startByte.value > lastProgress {
        lastProgress := startByte.value;
        retries := 0;
      } else {
        retries := retries + 1;
        if retries > numRetries { return Err(TooManyRetries), log, transferred; }
      }
    }
  }

  // ---------------------------------------------------------------------------
  // Rewrite
  // ---------------------------------------------------------------------------

  type Token = string

  /** One reply to a rewrite call; an empty token counts as none. */
  datatype Response = Response(done: bool, total: nat, token: Token)

  /** The first token there is, starting with that of a tracker file. */
  function FirstToken(resume: Token, responses: seq<Response>): Token
    decreases |responses|
  {
    if resume != "" || responses == [] then resume else FirstToken(responses[0].token, responses[1..])
  }

  /** The tokens the calls carry. */
  function SentTokens(resume: Token, responses: seq<Response>): seq<Token>
    decreases |responses|
  {
    if responses == [] then []
    else
      var before := responses[..|responses| - 1];
      SentTokens(resume, before) + [FirstToken(resume, before)]
  }

  lemma {:induction false} FirstTokenSnoc(resume: Token, responses: seq<Response>, x: Response)
    ensures
      var t := FirstToken(resume, responses);
      FirstToken(resume, responses + [x]) == if t != "" then t else x.token
    decreases |responses|
  {
    if resume == "" && responses != [] {
      assert (responses + [x])[1..] == responses[1..] + [x];
      FirstTokenSnoc(responses[0].token, responses[1..], x);
    } else if resume == "" {
      assert (responses + [x])[1..] == [];
      assert FirstToken(x.token, []) == x.token;
    }
  }

  /** Once there is a token it is never replaced. */
  lemma {:induction false} FirstTokenStays(resume: Token, responses: seq<Response>, i: nat, j: nat)
    requires i <= j <= |responses| && FirstToken(resume, responses[..i]) != ""
    ensures FirstToken(resume, responses[..j]) == FirstToken(resume, responses[..i])
    decreases j
  {
    if i < j {
      FirstTokenStays(resume, responses, i, j - 1);
      assert responses[..j] == responses[..j - 1] + [responses[j - 1]];
      FirstTokenSnoc(resume, responses[..j - 1], responses[j - 1]);
    }
  }

  /** The first call carries the tracker file's token, and each later one the token of the call before it or,
      if that had none, of the reply to it. */
  predicate Carried(resume: Token, sent: seq<Token>, responses: seq<Response>) {
    && |responses| <= |sent| <= |responses| + 1
    && (sent != [] ==> sent[0] == resume)
    && forall i :: 0 <= i < |sent| - 1 ==> CarriedNext(sent, responses, i)
  }

  predicate CarriedNext(sent: seq<Token>, responses: seq<Response>, i: nat)
    requires i + 1 < |sent| && i < |responses|
  {
    sent[i + 1] == if sent[i] != "" then sent[i] else responses[i].token
  }

  /** The tokens of the calls, and the one to go on with, are carried on like that. */
  lemma {:induction false} SentExact(resume: Token, responses: seq<Response>)
    ensures
      var sent := SentTokens(resume, responses);
      && |sent| == |responses| && Carried(resume, sent, responses)
      && Carried(resume, sent + [FirstToken(resume, responses)], responses)
    decreases |responses|
  {
    if responses != [] {
      var n := |responses| - 1;
      var sent, last := SentTokens(resume, responses), FirstToken(resume, responses);
      SentExact(resume, responses[..n]);
      Snoc(resume, responses, n);
      assert responses[..n + 1] == responses;
      forall i | 0 <= i < |responses|
        ensures CarriedNext(sent + [last], responses, i) && (i < n ==> CarriedNext(sent, responses, i))
      {
        if i < n { assert CarriedNext(sent, responses[..n], i); }
      }
    }
  }

  /** The totals the service reports never go back and never pass the object's size. */
  ghost predicate Totals(responses: seq<Response>, size: nat) {
    forall i, j :: 0 <= i <= j < |responses| ==> responses[i].total <= responses[j].total <= size
  }

  /** The rewrite loop of `CopyObject`, for the replies a service gives before it is done, or before a
      call fails. The byte counts passed on add up to the last total reported, every call carries the
      first token there was, and after a failure the tracker file holds the token to go on with. */
  method Rewrite(responses: seq<Response>, size: nat, resume: Token, tracker: Option<Token>)
    returns (r: Result<(), Failure>, sent: seq<Token>, tracked: Option<Token>, cb: Progress.ProgressCallbackWithTimeout)
    requires forall i :: 0 <= i < |responses| - 1 ==> !responses[i].done
    requires tracker == if resume == "" then None else Some(resume)
    ensures r.Ok? <==> responses != [] && responses[|responses| - 1].done
    ensures sent == SentTokens(resume, responses) + if r.Ok? then [] else [FirstToken(resume, responses)]
    ensures r.Ok? ==> tracked.None?
    ensures r.Err? ==> tracked == if resume == "" && responses == [] then None else Some(FirstToken(resume, responses))
    ensures fresh(cb) && (Totals(responses, size) ==> Progress.Sound(cb.State()))
    ensures Progress.Counted(cb.State()) == if responses == [] then 0 else responses[|responses| - 1].total
    ensures r.Ok? && Totals(responses, size) && 0 < size == responses[|responses| - 1].total ==>
      cb.calls != [] && cb.calls[|cb.calls| - 1] == size
  {
    var now: real := *;
    cb := new Progress.ProgressCallbackWithTimeout(Some(size), Progress.START_BYTES_PER_CALLBACK, Progress.TIMEOUT_SECONDS, now);
    var token, last, i := resume, 0, 0;
    sent, tracked := [], tracker;
    while i < |responses|
      invariant i <= |responses| && (i > 0 ==> !responses[i - 1].done)
      invariant token == FirstToken(resume, responses[..i])
      invariant sent == SentTokens(resume, responses[..i])
      invariant tracked == if resume == "" && i == 0 then None else Some(token)
      invariant last == if i == 0 then 0 else responses[i - 1].total
      invariant fresh(cb) && cb.total == Some(size)
      invariant (Totals(responses, size) ==> Progress.Sound(cb.State())) && Progress.Counted(cb.State()) == last
    {
      var response := responses[i];
      Snoc(resume, responses, i);
      sent := sent + [token];
      Advance(cb, response.total - last);
      if response.done {
        assert responses[..i + 1] == responses;
        if Totals(responses, size) && 0 < size == response.total { Progress.SoundAtTotal(cb.State()); }
        return Ok(()), sent, None, cb;
      }
      if token == "" {
        token := response.token;
        tracked := Some(response.token);
      }
      last := response.total;
      i := i + 1;
    }
    assert responses[..|responses|] == responses;
    return Err(OtherException), sent + [token], tracked, cb;
  }

  method Advance(cb: Progress.ProgressCallbackWithTimeout, n: int)
    modifies cb
    ensures Progress.Counted(cb.State()) == old(Progress.Counted(cb.State())) + n
    ensures n >= 0 && old(Progress.Sound(cb.State())) ==> Progress.Sound(cb.State())
  {
    var now: real := *;
    if n >= 0 && Progress.Sound(cb.State()) { Progress.ReportSound(cb.State(), n, now); }
    cb.Progress(n, now);
  }

  lemma Snoc(resume: Token, responses: seq<Response>, i: nat)
    requires i < |responses|
    ensures SentTokens(resume, responses[..i + 1]) == SentTokens(resume, responses[..i]) + [FirstToken(resume, responses[..i])]
    ensures
      var t := FirstToken(resume, responses[..i]);
      FirstToken(resume, responses[..i + 1]) == if t != "" then t else responses[i].token
  {
    assert responses[..i + 1] == responses[..i] + [responses[i]];
    assert responses[..i + 1][..i] == responses[..i];
    FirstTokenSnoc(resume, responses[..i], responses[i]);
  }
}
