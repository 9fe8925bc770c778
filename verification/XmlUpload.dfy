/** Resumable upload over the XML API: the client's retry loop against a service that may fail, forget
    the upload ID and keep any prefix of what it is sent. */
module XmlUpload {
  import opened Sequences
  import opened Wrappers

  datatype Disposition = StartOver | WaitBeforeRetry | AbortCurProcess | Abort

  /** What can be raised inside an attempt. */
  datatype Failure = HttpException | SocketError | InvalidUrl | Resumable(disposition: Disposition)

  /** The failures after which `SendFile` tries again. */
  predicate Retryable(f: Failure) { f.HttpException? || f.SocketError? || f == Resumable(WaitBeforeRetry) }

  /** Content-Range of a request: none, `*` / length, or first-last / length with both ends included. */
  datatype ContentRange = Absent | Unknown(length: nat) | Span(first: nat, last: nat, length: nat)

  /** Range of a 308 reply. */
  datatype RangeHeader = NoRange | Unparsable | Bytes(first: nat, last: nat)

  datatype Reply = Status(code: nat, range: RangeHeader) | NoReply(socket: bool) {
    predicate In(codes: set<nat>) { Status? && code in codes }

    /** A state query answered like this does not tell where to go on. */
    predicate Stale() { Status? && !In({200}) && !(In({308}) && !range.Unparsable?) }

    /** This is the last byte that the service has, as a state query is answered: -1 if it has none. */
    predicate Tells(length: nat, last: int) {
      || (In({200}) && last == length - 1)
      || (In({308}) && range.NoRange? && last == -1)
      || (In({308}) && range.Bytes? && last == range.last)
    }
  }

  datatype StartReply = Started(code: nat, location: Option<nat>, validUrl: bool) | NoStart(socket: bool) {
    predicate In(codes: set<nat>) { Started? && code in codes }
  }

  /** How the PUT of an attempt ends: the connection breaks, the file has fewer bytes left than announced,
      or the service is waited for. */
  datatype PutEnd = Broken(socket: bool) | Short | Answered(reply: Reply)

  /** What the service said in one attempt, as far as the attempt got: to the state query that resumes an
      upload, to the POST that starts one, to the PUT, and to the state query after a failed PUT. */
  datatype Attempt = Attempt(resumed: Option<Reply>, started: Option<StartReply>, put: Option<PutEnd>, state: Option<Reply>)
  {
    /** The PUT was answered with one of these codes. */
    predicate PutIn(codes: set<nat>) { put.Some? && put.value.Answered? && put.value.reply.In(codes) }

    /** The PUT got no answer, as a socket error or not. */
    predicate PutLost(socket: bool) { put == Some(Broken(socket)) || put == Some(Answered(NoReply(socket))) }

    /** The state query after a failed PUT was answered, and not with 400. */
    predicate StateFine() { state.Some? && state.value.Status? && state.value.code != 400 }

    /** The attempt has come to its end: if it got as far as the PUT, the state was asked for unless the PUT
        succeeded or failed with an HTTP exception. */
    predicate Complete() {
      && (state.Some? <==> put.Some? && !PutIn({200}) && !PutLost(false))
      && (put.None? && started.Some? ==> !(started.value.In({200, 201}) && started.value.location.Some? && started.value.validUrl))
    }

    /** What the attempt comes to. */
    function Outcome(): Result<(), Failure> {
      if put.Some? then
        var r := PutOutcome(put.value);
        if state.None? then r
        else if state.value.NoReply? then Err(Lost(state.value.socket))
        else if state.value.code == 400 then Err(Resumable(Abort))
        else r
      else if started.Some? then StartOutcome(started.value)
      else if resumed.Some? && resumed.value.NoReply? then Err(Lost(resumed.value.socket))
      else Err(Resumable(Abort))
    }
  }

  function Lost(socket: bool): Failure { if socket then SocketError else HttpException }

  function StartOutcome(reply: StartReply): Result<(), Failure> {
    match reply
    case NoStart(socket) => Err(Lost(socket))
    case Started(code, location, validUrl) =>
      if code in {429, 500, 503} then Err(Resumable(WaitBeforeRetry))
      else if code !in {200, 201} then Err(Resumable(Abort))
      else if location.None? then Err(Resumable(WaitBeforeRetry))
      else if !validUrl then Err(InvalidUrl)
      else Ok(())
  }

  function PutOutcome(put: PutEnd): Result<(), Failure> {
    match put
    case Broken(socket) => Err(Lost(socket))
    case Short => Err(Resumable(Abort))
    case Answered(NoReply(socket)) => Err(Lost(socket))
    case Answered(Status(code, _)) =>
      if code == 200 then Ok(()) else Err(Resumable(if code in {408, 429, 500, 503} then WaitBeforeRetry else Abort))
  }

  // ---------------------------------------------------------------------------
  // The service
  // ---------------------------------------------------------------------------

  /** The most a service can have for an upload after a request with this header, of whose announced
      body the bytes `sent` arrived; what goes beyond Content-Length is not part of the request. */
  function Joined(data: seq<byte>, header: ContentRange, contentLength: nat, sent: seq<byte>): seq<byte> {
    var body := sent[..Min(contentLength, |sent|)];
    match header
    case Absent => body
    case Unknown(_) => data
    case Span(first, _, _) => if first <= |data| then data[..first] + body else data
  }

  function TotalLength(header: ContentRange, contentLength: nat): nat {
    if header.Absent? then contentLength else header.length
  }

  /** The bytes kept for each upload ID, the uploads completed, and the object in the bucket. With
      `reliable` nothing is lost and every request succeeds. */
  class Service {
    const reliable: bool
    var sessions: map<nat, seq<byte>>
    var complete: set<nat>
    var object_: Option<seq<byte>>

    constructor (reliable: bool, sessions: map<nat, seq<byte>>, complete: set<nat>, object_: Option<seq<byte>>)
      ensures this.reliable == reliable && this.sessions == sessions
      ensures this.complete == complete && this.object_ == object_
    {
      this.reliable, this.sessions, this.complete, this.object_ := reliable, sessions, complete, object_;
    }

    /** All uploads are uploads of this file. */
    ghost predicate Holds(file: seq<byte>)
      reads this
    {
      && (forall id :: id in sessions ==> sessions[id] <= file)
      && (complete != {} ==> object_ == Some(file))
      && (forall id :: id in complete ==> id in sessions && sessions[id] == file)
    }

    /** A request arrives. It may be lost with the upload ID, or leave any prefix; if all is there, the
        upload may complete. */
    method Deliver(id: nat, header: ContentRange, contentLength: nat, sent: seq<byte>)
      modifies this
      ensures forall i :: i in sessions ==> i in old(sessions) && (i != id ==> sessions[i] == old(sessions[i]))
      ensures forall i :: i in old(sessions) && i !in sessions ==> i == id && i !in complete
      ensures
        var data := if id in old(sessions) then old(sessions[id]) else [];
        var all := Joined(data, header, contentLength, sent);
        && (id in sessions && id !in old(complete) ==> sessions[id] <= data || sessions[id] <= all)
        && (id in sessions && id in old(complete) ==> sessions[id] == data)
        && (if complete <= old(complete) then object_ == old(object_)
            else complete == old(complete) + {id} && id in sessions && sessions[id] == all &&
                 |all| == TotalLength(header, contentLength) && object_ == Some(all))
        && (reliable ==> sessions.Keys == old(sessions.Keys) && complete >= old(complete))
        && (reliable && id in sessions && id !in old(complete) ==>
              sessions[id] == all && (id in complete <==> |all| == TotalLength(header, contentLength)))
    {
      if id !in sessions { return; }
      var lost: bool := *;
      if lost && !reliable {
        sessions, complete := sessions - {id}, complete - {id};
        return;
      }
      if id in complete { return; }
      var all := Joined(sessions[id], header, contentLength, sent);
      var k: nat := |all|;
      var refused: bool := *;
      if !reliable {
        if refused { return; }
        k :| k <= |all|;
      }
      sessions := sessions[id := all[..k]];
      assert k == |all| ==> all[..k] == all;
      var finish: bool := *;
      if (finish || reliable) && k == |all| == TotalLength(header, contentLength) {
        complete, object_ := complete + {id}, Some(all);
      }
    }

    /** The reply to a request: 200 only for a completed upload, a range only of bytes it has. */
    method Respond(id: nat) returns (reply: Reply)
      ensures reply.Status? && reply.code == 200 ==> id in complete
      ensures reply.Status? && reply.code == 308 && reply.range.Bytes? ==>
        id in sessions && reply.range.first == 0 && reply.range.last < |sessions[id]|
      ensures reliable && id in complete ==> reply == Status(200, NoRange)
      ensures reliable && id in sessions && id !in complete ==>
        reply == Status(308, if sessions[id] == [] then NoRange else Bytes(0, |sessions[id]| - 1))
      ensures reliable && id !in sessions && id !in complete ==> reply == Status(404, NoRange)
    {
      if reliable {
        if id in complete { return Status(200, NoRange); }
        if id !in sessions { return Status(404, NoRange); }
        return Status(308, if sessions[id] == [] then NoRange else Bytes(0, |sessions[id]| - 1));
      }
      var answers: bool := *;
      if !answers {
        var socket: bool := *;
        return NoReply(socket);
      }
      var code: nat :| 0 <= code;
      if code == 200 && id !in complete { code := 503; }
      var parses: bool := *;
      if !parses { return Status(code, Unparsable); }
      if id in sessions && sessions[id] != [] {
        var last: nat :| last < |sessions[id]|;
        return Status(code, Bytes(0, last));
      }
      return Status(code, NoRange);
    }

    /** A POST that starts a new upload. */
    method Start() returns (reply: StartReply)
      modifies this`sessions
      ensures forall i :: i in old(sessions) ==> i in sessions && sessions[i] == old(sessions[i])
      ensures sessions == old(sessions) ||
        (reply.Started? && reply.location.Some? && sessions == old(sessions)[reply.location.value := []])
      ensures reply.Started? && reply.location.Some? ==>
        reply.location.value in sessions && reply.location.value !in complete && sessions[reply.location.value] == []
      ensures reliable ==> reply.Started? && reply.code == 200 && reply.location.Some? && reply.validUrl
    {
      var answers: bool := *;
      if !answers && !reliable {
        var socket: bool := *;
        return NoStart(socket);
      }
      var code: nat :| 0 <= code;
      var created: bool := *;
      if !created && !reliable { return Started(code, None, false); }
      var id: nat := Fresh(sessions.Keys + complete);
      sessions := sessions[id := []];
      var validUrl: bool := *;
      return Started(if reliable then 200 else code, Some(id), validUrl || reliable);
    }
  }

  /** An upload ID not in use. */
  method Fresh(used: set<nat>) returns (id: nat)
    ensures id !in used
  {
    id := 0;
    var left := used;
    while left != {}
      invariant forall i :: i in used && i >= id ==> i in left
    {
      var i :| i in left;
      left := left - {i};
      if i >= id { id := i + 1; }
    }
  }

  // ---------------------------------------------------------------------------
  // The headers
  // ---------------------------------------------------------------------------

  /** The Content-Range of a PUT that goes on after `start` bytes. */
  function PutRange(start: nat, length: nat): (header: ContentRange)
    requires start <= length
    ensures header.Absent? <==> length == 0
    ensures header.Span? ==> header.first <= header.last < header.length == length
  {
    if length == 0 then Absent
    else if start == length then Unknown(length)
    else Span(start, length - 1, length)
  }

  /** The announced range has exactly as many bytes as the announced body (section 4.2 of RFC 7233: both
      ends are included), and it says "no bytes" exactly when there are none to send. */
  lemma RangeMatchesLength(start: nat, length: nat)
    requires start <= length
    ensures
      var header := PutRange(start, length);
      && (header.Span? ==> header.last - header.first + 1 == length - start)
      && (header.Span? <==> length - start > 0)
      && TotalLength(header, length - start) == length
  {
  }

  /** What an attempt comes to, reply by reply: it succeeds exactly if the PUT is answered with 200, and is
      retried exactly after a lost reply or connection, and after the codes of the POST and of the PUT that
      ask for patience; but a state query answered with 400 aborts. */
  lemma OutcomeExact(a: Attempt)
    requires a.Complete()
    ensures
      var r := a.Outcome();
      && (r.Ok? <==> a.PutIn({200}))
      && (r.Err? ==> r.error != Resumable(AbortCurProcess) && r.error != Resumable(StartOver))
      && (a.StateFine() ==> (r == Err(Resumable(WaitBeforeRetry)) <==> a.PutIn({408, 429, 500, 503})))
      && (a.StateFine() ==> (r == Err(SocketError) <==> a.PutLost(true)))
      && (a.StateFine() ==> r != Err(HttpException) && r != Err(InvalidUrl))
      && (a.state.Some? && a.state.value.In({400}) ==> r == Err(Resumable(Abort)))
      && (a.state.Some? && a.state.value.NoReply? ==> r == Err(if a.state.value.socket then SocketError else HttpException))
      && (a.PutLost(false) ==> r == Err(HttpException))
      && (a.put.None? && a.started.None? && a.resumed == Some(NoReply(true)) ==> r == Err(SocketError))
      && (a.put.None? && a.started.None? && a.resumed == Some(NoReply(false)) ==> r == Err(HttpException))
      && (a.put.None? && a.started.None? && !(a.resumed.Some? && a.resumed.value.NoReply?) ==> r == Err(Resumable(Abort)))
    ensures a.put.None? && a.started.Some? ==>
      var r := a.Outcome();
      && (r == Err(Resumable(WaitBeforeRetry)) <==>
            a.started.value.In({429, 500, 503}) || (a.started.value.In({200, 201}) && a.started.value.location.None?))
      && (r == Err(Resumable(Abort)) <==> a.started.value.Started? && !a.started.value.In({200, 201, 429, 500, 503}))
  {
  }

  /** A request that goes on where the file was left, or says nothing, leaves a prefix of the file; and
      what has the full length is the file. */
  lemma JoinedIsPrefix(file: seq<byte>, data: seq<byte>, start: nat, sent: seq<byte>)
    requires data <= file && start <= |file|
    requires start < |file| ==> sent <= file[start..]
    ensures
      var all := Joined(data, PutRange(start, |file|), |file| - start, sent);
      && all <= file
      && (|all| == |file| ==> all == file)
      && (start < |file| && start <= |data| && |sent| == |file| - start ==> all == file)
  {
    var all := Joined(data, PutRange(start, |file|), |file| - start, sent);
    if start < |file| && start <= |data| {
      assert sent[..Min(|file| - start, |sent|)] == sent;
      assert all == data[..start] + sent;
      assert file == file[..start] + file[start..];
      assert forall i :: 0 <= i < |all| ==> all[i] == file[i];
    }
  }

  // ---------------------------------------------------------------------------
  // The client
  // ---------------------------------------------------------------------------

  class FilePointer {
    const content: seq<byte>
    var pos: nat

    constructor (content: seq<byte>)
      ensures this.content == content && pos == 0
    {
      this.content, pos := content, 0;
    }

    /** Some bytes, unless the end of the file is reached. */
    method Read(n: nat) returns (data: seq<byte>)
      requires pos <= |content|
      modifies this`pos
      ensures old(pos) <= pos <= |content| && data == content[old(pos)..pos]
      ensures n > 0 && old(pos) < |content| ==> data != []
    {
      var k: nat := 0;
      if n > 0 && pos < |content| { k :| 1 <= k <= n && k <= |content| - pos; }
      data := content[pos..pos + k];
      pos := pos + k;
    }

    method Seek(offset: nat)
      modifies this`pos
      ensures pos == offset
    {
      pos := offset;
    }
  }

  const BUFFER_SIZE: nat := 8192

  class BotoResumableUpload {
    const service: Service
    const numRetries: nat
    var uploadUrl: Option<nat>
    var serviceHasBytes: nat
    var uploadStartPoint: Option<int>
    var progressLess: nat

    constructor (service: Service, resumeUrl: Option<nat>, numRetries: Option<nat>, defaultRetries: nat)
      ensures this.service == service && uploadUrl == resumeUrl && serviceHasBytes == 0
      ensures this.numRetries == (if numRetries.Some? then numRetries.value else defaultRetries)
    {
      this.service := service;
      uploadUrl, serviceHasBytes, uploadStartPoint, progressLess := resumeUrl, 0, None, 0;
      this.numRetries := if numRetries.Some? then numRetries.value else defaultRetries;
    }

    /** All uploads are of this file, and the object is what it was, or the file. */
    ghost predicate AllOrNothing(file: seq<byte>, was: Option<seq<byte>>)
      reads service
    {
      service.Holds(file) && (service.object_ == was || service.object_ == Some(file))
    }

    /** The service can finish the upload with what is sent from `start` on. */
    ghost predicate CanFinish(id: nat, start: nat, length: nat)
      reads service
    {
      id in service.sessions &&
      (id in service.complete || start == 0 == length || (start < length && start <= |service.sessions[id]|))
    }

    /** Sends a PUT of this file that goes on after `start` bytes. */
    method Send(id: nat, header: ContentRange, contentLength: nat, sent: seq<byte>,
                ghost start: nat, ghost file: seq<byte>, ghost was: Option<seq<byte>>)
      requires start <= |file| && header == PutRange(start, |file|) && contentLength == |file| - start
      requires AllOrNothing(file, was)
      requires start < |file| ==> sent <= file[start..]
      modifies service
      ensures AllOrNothing(file, was)
      ensures service.reliable ==> service.sessions.Keys == old(service.sessions.Keys)
      ensures service.reliable && old(CanFinish(id, start, |file|)) && (start < |file| ==> |sent| == |file| - start) ==>
        id in service.complete
    {
      ghost var data := if id in service.sessions then service.sessions[id] else [];
      RangeMatchesLength(start, |file|);
      JoinedIsPrefix(file, data, start, sent);
      service.Deliver(id, header, contentLength, sent);
    }

    /** `_QueryServiceState`: an empty PUT that makes the service tell its state. */
    method QueryServiceState(id: nat, length: nat, ghost file: seq<byte>, ghost was: Option<seq<byte>>) returns (reply: Reply)
      requires length == |file| && AllOrNothing(file, was)
      modifies service
      ensures AllOrNothing(file, was)
      ensures reply.Status? && reply.code == 200 ==> id in service.complete
      ensures reply.Status? && reply.code == 308 && reply.range.Bytes? ==>
        id in service.sessions && reply.range.first == 0 && reply.range.last < |service.sessions[id]|
      ensures service.reliable ==>
        && service.sessions.Keys == old(service.sessions.Keys)
        && (id in service.complete <==> id in service.sessions && old(service.sessions[id]) == file)
        && (id in service.sessions ==> service.sessions[id] == old(service.sessions[id]))
        && reply == (if id in service.complete then Status(200, NoRange)
                     else if id !in service.sessions then Status(404, NoRange)
                     else if service.sessions[id] == [] then Status(308, NoRange)
                     else Status(308, Bytes(0, |service.sessions[id]| - 1)))
    {
      ghost var data := if id in service.sessions then service.sessions[id] else [];
      assert data <= file && (|data| == |file| ==> data == file);
      service.Deliver(id, Unknown(length), 0, []);
      reply := service.Respond(id);
    }

    /** `_QueryServicePos`: the first and last byte the service has; (0, -1) if it has none. Any code but
        200 and 308, and a range that cannot be read, mean that the upload must be started over. */
    method QueryServicePos(id: nat, length: nat, ghost file: seq<byte>, ghost was: Option<seq<byte>>)
      returns (r: Result<(int, int), Failure>, ghost reply: Reply)
      requires length == |file| && AllOrNothing(file, was)
      modifies service
      ensures AllOrNothing(file, was)
      ensures r.Ok? ==> r.value.0 == 0 && -1 <= r.value.1 < length
      ensures r.Err? ==> r.error in {HttpException, SocketError, Resumable(StartOver)}
      ensures reply.In({200}) ==> r == Ok((0, length - 1))
      ensures reply.In({308}) && reply.range.NoRange? ==> r == Ok((0, -1))
      ensures reply.In({308}) && reply.range.Bytes? ==> r == Ok((reply.range.first, reply.range.last))
      ensures r == Err(Resumable(StartOver)) <==> reply.Stale()
      ensures r == Err(SocketError) <==> reply == NoReply(true)
      ensures r == Err(HttpException) <==> reply == NoReply(false)
      ensures service.reliable ==>
        && service.sessions.Keys == old(service.sessions.Keys)
        && (id in service.complete <==> id in service.sessions && old(service.sessions[id]) == file)
        && (if id in service.sessions then r == Ok((0, |old(service.sessions[id])| - 1)) && service.sessions[id] == old(service.sessions[id])
            else r == Err(Resumable(StartOver)))
    {
      var resp := QueryServiceState(id, length, file, was);
      reply := resp;
      if resp.NoReply? { return Err(if resp.socket then SocketError else HttpException), reply; }
      if resp.code == 200 { return Ok((0, length - 1)), reply; }
      if resp.code != 308 { return Err(Resumable(StartOver)), reply; }
      match resp.range {
        case NoRange => return Ok((0, -1)), reply;
        case Unparsable => return Err(Resumable(StartOver)), reply;
        case Bytes(first, last) => return Ok((first, last)), reply;
      }
    }

    /** `_StartNewResumableUpload`; `lengthHeader` says that the caller's headers have Content-Length. What
        the service says to the POST decides. */
    method StartNewResumableUpload(lengthHeader: bool, ghost file: seq<byte>, ghost was: Option<seq<byte>>)
      returns (r: Result<(), Failure>, ghost reply: Option<StartReply>)
      requires AllOrNothing(file, was)
      modifies service, this`uploadUrl, this`serviceHasBytes
      ensures AllOrNothing(file, was) && serviceHasBytes == 0
      ensures r == Err(Resumable(AbortCurProcess)) || r == Err(Resumable(StartOver)) ==> false
      ensures reply.None? <==> lengthHeader
      ensures r == if lengthHeader then Err(Resumable(Abort)) else StartOutcome(reply.value)
      ensures r.Ok? <==> reply.Some? && reply.value.In({200, 201}) && reply.value.location.Some? && reply.value.validUrl
      ensures r.Ok? ==> uploadUrl == reply.value.location
      ensures r.Err? ==> uploadUrl == old(uploadUrl)
      ensures reply.Some? ==> (r == Err(Resumable(WaitBeforeRetry)) <==>
        reply.value.In({429, 500, 503}) || (reply.value.In({200, 201}) && reply.value.location.None?))
      ensures reply.Some? ==> (r == Err(Resumable(Abort)) <==>
        reply.value.Started? && !reply.value.In({200, 201, 429, 500, 503}))
      ensures r == Err(SocketError) <==> reply == Some(NoStart(true))
      ensures r == Err(HttpException) <==> reply == Some(NoStart(false))
      ensures service.reliable && !lengthHeader ==>
        r.Ok? && uploadUrl.value in service.sessions && service.sessions[uploadUrl.value] == []
    {
      serviceHasBytes := 0;
      if lengthHeader { return Err(Resumable(Abort)), None; }
      var resp := service.Start();
      reply := Some(resp);
      if resp.NoStart? { return Err(if resp.socket then SocketError else HttpException), reply; }
      if resp.code in {429, 500, 503} { return Err(Resumable(WaitBeforeRetry)), reply; }
      if resp.code != 200 && resp.code != 201 { return Err(Resumable(Abort)), reply; }
      if resp.location.None? { return Err(Resumable(WaitBeforeRetry)), reply; }
      if !resp.validUrl { return Err(InvalidUrl), reply; }
      uploadUrl := resp.location;
      return Ok(()), reply;
    }

    /** The loop of `_UploadFileBytes`: reads the file from where it stands and sends it, buffer by
        buffer, until its end or until the connection breaks. */
    method SendBuffers(fp: FilePointer, start: nat) returns (total: nat, sent: seq<byte>, broken: bool)
      requires fp.pos <= |fp.content|
      modifies fp`pos
      ensures old(fp.pos) <= fp.pos <= |fp.content| && sent == fp.content[old(fp.pos)..fp.pos]
      ensures !broken ==> fp.pos == |fp.content| && total == start + |sent|
      ensures service.reliable ==> !broken
    {
      total, sent := start, [];
      var buf := fp.Read(BUFFER_SIZE);
      while buf != []
        invariant old(fp.pos) <= fp.pos <= |fp.content| && sent + buf == fp.content[old(fp.pos)..fp.pos]
        invariant total == start + |sent|
        invariant buf == [] ==> fp.pos == |fp.content|
        decreases |fp.content| - fp.pos, |buf|
      {
        sent := sent + buf;
        var breaks: bool := *;
        if breaks && !service.reliable { return total, sent, true; }
        total := total + |buf|;
        buf := fp.Read(BUFFER_SIZE);
      }
      broken := false;
    }

    /** `_UploadFileBytes`: a single attempt to send the rest of the file; `put` is how it ended. It succeeds
        with a reply of 200, and is worth another attempt with 408, 429, 500 and 503. */
    method UploadFileBytes(fp: FilePointer, length: nat, start: nat, ghost was: Option<seq<byte>>)
      returns (r: Result<(), Failure>, ghost put: PutEnd)
      requires uploadUrl.Some? && length == |fp.content| && start <= length
      requires fp.pos <= length && (start < length ==> fp.pos == start)
      requires AllOrNothing(fp.content, was)
      modifies service, fp`pos
      ensures AllOrNothing(fp.content, was) && fp.pos <= length
      ensures r.Ok? ==> service.object_ == Some(fp.content)
      ensures r == PutOutcome(put)
      ensures r.Ok? <==> put.Answered? && put.reply.In({200})
      ensures r == Err(Resumable(WaitBeforeRetry)) <==> put.Answered? && put.reply.In({408, 429, 500, 503})
      ensures r == Err(Resumable(Abort)) <==>
        put.Short? || (put.Answered? && put.reply.Status? && !put.reply.In({200, 408, 429, 500, 503}))
      ensures r == Err(SocketError) <==> put == Broken(true) || put == Answered(NoReply(true))
      ensures r == Err(HttpException) <==> put == Broken(false) || put == Answered(NoReply(false))
      ensures put.Short? ==> start == length && old(fp.pos) < length
      ensures put.Answered? ==> !(start == length && old(fp.pos) < length)
      ensures service.reliable ==> service.sessions.Keys == old(service.sessions.Keys)
      ensures service.reliable && old(CanFinish(uploadUrl.value, start, length)) ==>
        (if start == length && old(fp.pos) < length then r == Err(Resumable(Abort)) else r.Ok?)
    {
      var id := uploadUrl.value;
      var total, sent, broken := SendBuffers(fp, start);
      Send(id, PutRange(start, length), length - start, sent, start, fp.content, was);
      if broken {
        var socket: bool := *;
        return Err(if socket then SocketError else HttpException), Broken(socket);
      }
      if total != length { return Err(Resumable(Abort)), Short; }
      var reply := service.Respond(id);
      put := Answered(reply);
      if reply.NoReply? { return Err(if reply.socket then SocketError else HttpException), put; }
      if reply.code == 200 { return Ok(()), put; }
      return Err(Resumable(if reply.code in {408, 429, 500, 503} then WaitBeforeRetry else Abort)), put;
    }

    /** The first part of `_AttemptResumableUpload`: the last byte the service has of the upload that is
        resumed, or -1 for a new one. A new one is started exactly if there is none to resume, or the
        service does not tell where to go on with it. */
    method Begin(length: nat, lengthHeader: bool, ghost file: seq<byte>, ghost was: Option<seq<byte>>)
      returns (r: Result<int, Failure>, ghost resumed: Option<Reply>, ghost started: Option<StartReply>)
      requires length == |file| && AllOrNothing(file, was) && serviceHasBytes == 0
      modifies service, this`uploadUrl, this`serviceHasBytes
      ensures AllOrNothing(file, was) && serviceHasBytes == 0
      ensures r.Ok? ==> uploadUrl.Some? && -1 <= r.value < length
      ensures r == Err(Resumable(AbortCurProcess)) || r == Err(Resumable(StartOver)) ==> false
      ensures resumed.Some? <==> old(uploadUrl).Some?
      ensures started.Some? <==> !lengthHeader && (resumed.None? || resumed.value.Stale())
      ensures started.None? && r.Ok? ==> uploadUrl == old(uploadUrl) && resumed.value.Tells(length, r.value)
      ensures started.Some? && r.Ok? ==> r.value == -1 && StartOutcome(started.value).Ok? && uploadUrl == started.value.location
      ensures r.Err? ==> Attempt(resumed, started, None, None).Outcome() == Err(r.error)
      ensures service.reliable ==>
        (if old(uploadUrl.Some? && uploadUrl.value in service.sessions) then
           r == Ok(|old(service.sessions[uploadUrl.value])| - 1)
         else r == if lengthHeader then Err(Resumable(Abort)) else Ok(-1))
      ensures service.reliable && r.Ok? ==> CanFinish(uploadUrl.value, r.value + 1, length)
    {
      var end := -1;
      resumed, started := None, None;
      if uploadUrl.Some? {
        var pos, reply := QueryServicePos(uploadUrl.value, length, file, was);
        resumed := Some(reply);
        if pos.Ok? {
          end := pos.value.1;
          serviceHasBytes := pos.value.0;
        } else if pos.error.Resumable? {
          var start;
          start, started := StartNewResumableUpload(lengthHeader, file, was);
          if start.Err? { return Err(start.error), resumed, started; }
        } else {
          return Err(pos.error), resumed, started;
        }
      } else {
        var start;
        start, started := StartNewResumableUpload(lengthHeader, file, was);
        if start.Err? { return Err(start.error), resumed, started; }
      }
      return Ok(end), resumed, started;
    }

    /** The second part of `_AttemptResumableUpload`. After a PUT that failed otherwise than with an HTTP
        exception the state is asked for: with 400 the attempt is aborted, and with another answer what the
        PUT came to stands. */
    method SendRest(fp: FilePointer, length: nat, start: nat, ghost begun: Attempt, ghost was: Option<seq<byte>>)
      returns (r: Result<(), Failure>, ghost log: Attempt)
      requires uploadUrl.Some? && length == |fp.content| && start <= length
      requires fp.pos <= length && (start < length ==> fp.pos == start)
      requires AllOrNothing(fp.content, was)
      modifies service, fp`pos
      ensures AllOrNothing(fp.content, was) && fp.pos <= length
      ensures r.Ok? ==> service.object_ == Some(fp.content)
      ensures log.put.Some? && log == begun.(put := log.put, state := log.state)
      ensures r == log.Outcome()
      ensures log.state.Some? <==> !log.PutIn({200}) && !log.PutLost(false)
      ensures service.reliable && old(CanFinish(uploadUrl.value, start, length)) ==>
        (if start == length && old(fp.pos) < length then r == Err(Resumable(Abort)) else r.Ok?)
    {
      var sent, put := UploadFileBytes(fp, length, start, was);
      r, log := sent, begun.(put := Some(put), state := None);
      if r.Err? && (r.error.Resumable? || r.error.SocketError?) {
        var reply := QueryServiceState(uploadUrl.value, length, fp.content, was);
        log := log.(state := Some(reply));
        if reply.NoReply? { return Err(if reply.socket then SocketError else HttpException), log; }
        if reply.code == 400 { return Err(Resumable(Abort)), log; }
      }
    }

    /** `_AttemptResumableUpload`; `log` is what the service said, and decides (`OutcomeExact`). */
    method AttemptResumableUpload(fp: FilePointer, length: nat, lengthHeader: bool, ghost was: Option<seq<byte>>)
      returns (r: Result<(), Failure>, ghost log: Attempt)
      requires length == |fp.content| && fp.pos <= length && AllOrNothing(fp.content, was) && serviceHasBytes == 0
      modifies service, fp`pos, this`uploadUrl, this`serviceHasBytes, this`uploadStartPoint
      ensures AllOrNothing(fp.content, was) && fp.pos <= length && serviceHasBytes == 0
      ensures r.Ok? ==> service.object_ == Some(fp.content)
      ensures r == log.Outcome() && log.Complete()
      ensures old(uploadStartPoint).Some? || log.put.None? ==> uploadStartPoint == old(uploadStartPoint)
      ensures old(uploadStartPoint).None? && log.put.Some? ==>
        uploadStartPoint.Some? && (log.resumed.Some? && log.started.None? ==> log.resumed.value.Tells(length, uploadStartPoint.value)) &&
        (log.started.Some? ==> uploadStartPoint.value == -1)
      ensures service.reliable ==> (r.Ok? || r == Err(Resumable(Abort)))
      ensures service.reliable ==> (r.Ok? <==> old(Completes(fp, lengthHeader)))
    {
      var begun, resumed, started := Begin(length, lengthHeader, fp.content, was);
      log := Attempt(resumed, started, None, None);
      if begun.Err? { return Err(begun.error), log; }
      if uploadStartPoint.None? { uploadStartPoint := Some(begun.value); }
      var total := begun.value + 1;
      if total < length { fp.Seek(total); }
      r, log := SendRest(fp, length, total, log, was);
    }

    /** With a service that loses nothing, when an upload completes. One that is resumed after the service
        already has the whole file does so only if the file pointer is at the end. */
    ghost predicate Completes(fp: FilePointer, lengthHeader: bool)
      reads this, service, fp
    {
      if uploadUrl.Some? && uploadUrl.value in service.sessions
      then !(service.sessions[uploadUrl.value] == fp.content && fp.pos < |fp.content|)
      else !lengthHeader
    }

    /** `TrackProgressLessIterations`, without the sleep; an error is "too many attempts". */
    method TrackProgressLessIterations(before: nat) returns (r: Result<(), Failure>)
      modifies this`progressLess
      ensures progressLess == if serviceHasBytes > before then 0 else old(progressLess) + 1
      ensures r == if progressLess > numRetries then Err(Resumable(AbortCurProcess)) else Ok(())
    {
      if serviceHasBytes > before { progressLess := 0; } else { progressLess := progressLess + 1; }
      if progressLess > numRetries { return Err(Resumable(AbortCurProcess)); }
      return Ok(());
    }

    /** `SendFile`; `failures` are what its attempts raised, and `log` is what the service said in each.
        Whatever the service does, the object is what it was or the whole file, and a normal return means
        that it is the file. It goes on after every retryable failure but the last allowed one, and after no
        other: so an attempt answered with 408, 429, 500 or 503, or broken off by a socket error, is followed
        by another while retries are left, if the state query is answered, and not with 400. The byte count that is compared
        for progress is the first byte of the service's range, always 0, so the retry count is never
        reset: there are at most `numRetries` retries, with or without progress. */
    method SendFile(fp: FilePointer, size: nat, lengthHeader: bool) 
      returns (r: Result<(), Failure>, failures: seq<Failure>, ghost log: seq<Attempt>)
      requires size == |fp.content| && fp.pos <= size && service.Holds(fp.content) && serviceHasBytes == 0
      modifies this, service, fp`pos
      ensures service.Holds(fp.content)
      ensures service.object_ == old(service.object_) || service.object_ == Some(fp.content)
      ensures r.Ok? ==> service.object_ == Some(fp.content)
      ensures |log| == |failures| + (if r.Ok? then 1 else 0)
      ensures forall k :: 0 <= k < |failures| ==> log[k].Outcome() == Err(failures[k])
      ensures forall k :: 0 <= k < |log| ==> (log[k].PutIn({200}) <==> r.Ok? && k == |log| - 1)
      ensures forall k :: 0 <= k < |log| && (log[k].PutIn({408, 429, 500, 503}) || log[k].PutLost(true)) && log[k].StateFine() ==>
        k < |log| - 1 || |log| == numRetries + 1
      ensures forall k :: 0 <= k < |failures| - 1 ==> Retryable(failures[k])
      ensures forall k :: 0 <= k < |failures| ==>
        (k < |failures| - 1 || r.Ok? || r.error == Resumable(AbortCurProcess) <==>
           failures[k] in {HttpException, SocketError, Resumable(WaitBeforeRetry)})
      ensures r.Ok? ==> |failures| <= numRetries && forall k :: 0 <= k < |failures| ==> Retryable(failures[k])
      ensures r.Err? ==> 1 <= |failures| <= numRetries + 1
      ensures r.Err? && Retryable(failures[|failures| - 1]) ==>
        |failures| == numRetries + 1 && r.error == Resumable(AbortCurProcess)
      ensures r.Err? && !Retryable(failures[|failures| - 1]) ==> r.error == failures[|failures| - 1]
      ensures r.Err? ==> r.error in {InvalidUrl, Resumable(Abort), Resumable(AbortCurProcess)}
      ensures service.reliable ==> |failures| <= 1 && (r.Ok? <==> old(Completes(fp, lengthHeader)))
      ensures service.reliable && r.Err? ==> r.error == Resumable(Abort)
    {
      ghost var was := service.object_;
      progressLess, failures, log := 0, [], [];
      while true
        invariant |failures| == progressLess <= numRetries && serviceHasBytes == 0
        invariant forall k :: 0 <= k < |failures| ==> Retryable(failures[k])
        invariant |log| == |failures| && forall k :: 0 <= k < |log| ==> log[k].Outcome() == Err(failures[k]) && !log[k].PutIn({200})
        invariant AllOrNothing(fp.content, was) && fp.pos <= size
        invariant service.reliable ==> failures == [] && unchanged(this`uploadUrl, service, fp)
        decreases numRetries - |failures|
      {
        var before := serviceHasBytes;
        ghost var attempt;
        r, attempt := AttemptResumableUpload(fp, size, lengthHeader, was);
        log := log + [attempt];
        OutcomeExact(attempt);
        if r.Ok? { return; }
        failures := failures + [r.error];
        match r.error {
          case InvalidUrl => return;
          case Resumable(d) => if d != WaitBeforeRetry { return; }
          case HttpException =>
          case SocketError =>
        }
        var tracked := TrackProgressLessIterations(before);
        if tracked.Err? { return tracked, failures, log; }
      }
    }
  }

  /** An upload that the service has completed, but whose reply was lost with the process, is resumed: with
      the file just opened it aborts, although there is nothing left to do; with the file pointer at the
      end it returns normally. */
  method ResumeWholeFile(atEnd: bool) returns (r: Result<(), Failure>)
    ensures if atEnd then r.Ok? else r == Err(Resumable(Abort))
  {
    var service := new Service(true, map[0 := [1, 2]], {0}, Some([1, 2]));
    var fp := new FilePointer([1, 2]);
    if atEnd { fp.Seek(2); }
    var client := new BotoResumableUpload(service, Some(0), None, 5);
    var failures;
    ghost var log;
    r, failures, log := client.SendFile(fp, 2, false);
  }
}
