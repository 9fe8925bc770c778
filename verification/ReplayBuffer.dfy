/** The sliding replay buffer that makes an unseekable stream resumable: a deque of chunks that must
    behave as a window on the last bytes read. */
module ReplayBuffer {
  import opened Sequences
  import opened Wrappers

  /** `EmptyDeque` is the IndexError of asking an empty deque for its first chunk. */
  datatype Error = NotBuffered | EndOffsetTooLarge | InvalidMode | BufferTooSmall | EmptyDeque

  datatype Whence = Set | End | Other

  /** Chunk `i` of a buffer is found after the lengths of the chunks before it. */
  lemma ChunkAt(chunks: seq<seq<byte>>, i: nat)
    requires i < |chunks|
    ensures
      var before := |Concat(chunks[..i])|;
      && |Concat(chunks[..i + 1])| == before + |chunks[i]| <= |Concat(chunks)|
      && chunks[i] == Concat(chunks)[before..before + |chunks[i]|]
  {
    assert chunks[..i + 1] == chunks[..i] + [chunks[i]];
    ConcatSnoc(chunks[..i], chunks[i]);
    assert chunks == chunks[..i + 1] + chunks[i + 1..];
    ConcatCat(chunks[..i + 1], chunks[i + 1..]);
  }

  function WindowStart(max: nat, end: nat): nat { if end > max then end - max else 0 }

  /** The chunks are bytes from..to of the stream. */
  predicate IsWindow(content: seq<byte>, chunks: seq<seq<byte>>, from: nat, to: nat) {
    from <= to <= |content| && Concat(chunks) == content[from..to] && NoEmptyChunk(chunks)
  }

  lemma WindowGrow(content: seq<byte>, chunks: seq<seq<byte>>, from: nat, to: nat, x: seq<byte>)
    requires IsWindow(content, chunks, from, to) && to + |x| <= |content| && x == content[to..to + |x|] && x != []
    ensures IsWindow(content, chunks + [x], from, to + |x|)
  {
    ConcatSnoc(chunks, x);
    assert content[from..to + |x|] == content[from..to] + x;
  }

  lemma WindowDrop(content: seq<byte>, chunks: seq<seq<byte>>, from: nat, to: nat)
    requires IsWindow(content, chunks, from, to) && from < to
    ensures chunks != []
    ensures
      var next := from + |chunks[0]|;
      from < next <= to && chunks[0] == content[from..next] && IsWindow(content, chunks[1..], next, to)
  {
    var x, y := chunks[0], Concat(chunks[1..]);
    assert x == (x + y)[..|x|] && y == (x + y)[|x|..];
    assert content[from..to][|x|..] == content[from + |x|..to];
  }

  lemma WindowPush(content: seq<byte>, chunks: seq<seq<byte>>, from: nat, to: nat, x: seq<byte>)
    requires IsWindow(content, chunks, from, to)
    requires 0 < |x| <= from && x == content[from - |x|..from]
    ensures IsWindow(content, [x] + chunks, from - |x|, to)
  {
    assert ([x] + chunks)[1..] == chunks;
    assert content[from - |x|..to] == x + content[from..to];
  }

  /** The chunk `x` ends where the window starts; with it the window would be longer than `most`. */
  ghost predicate Evicted(content: seq<byte>, x: seq<byte>, from: nat, to: nat, most: nat) {
    0 < |x| <= from <= |content| && x == content[from - |x|..from] && to - (from - |x|) > most
  }

  lemma Evict(content: seq<byte>, chunks: seq<seq<byte>>, from: nat, to: nat, most: nat)
    requires IsWindow(content, chunks, from, to) && to - from > most
    ensures chunks != [] && Evicted(content, chunks[0], from + |chunks[0]|, to, most)
    ensures IsWindow(content, chunks[1..], from + |chunks[0]|, to)
  {
    WindowDrop(content, chunks, from, to);
  }

  /** The end of the chunk that was evicted last is put back. */
  lemma Refill(content: seq<byte>, chunks: seq<seq<byte>>, from: nat, to: nat, most: nat, x: seq<byte>)
    requires IsWindow(content, chunks, from, to) && Evicted(content, x, from, to, most) && to - from <= most
    ensures
      var n := most - (to - from);
      && n < |x| && from - n == WindowStart(most, to)
      && (n != 0 ==> IsWindow(content, [x[|x| - n..]] + chunks, from - n, to))
  {
    var n := most - (to - from);
    if n != 0 {
      SliceOfSlice(content, from - |x|, from, |x| - n, |x|);
      WindowPush(content, chunks, from, to, x[|x| - n..]);
    }
  }

  /** A part of chunk `i` is the part of the stream at the same place. */
  lemma WindowPart(content: seq<byte>, chunks: seq<seq<byte>>, from: nat, to: nat, i: nat, a: nat, b: nat)
    requires IsWindow(content, chunks, from, to) && i < |chunks| && a <= b <= |chunks[i]|
    ensures
      var at := from + |Concat(chunks[..i])|;
      && at + |chunks[i]| <= to && from + |Concat(chunks[..i + 1])| == at + |chunks[i]|
      && chunks[i][a..b] == content[at + a..at + b]
      && (i + 1 == |chunks| ==> at + |chunks[i]| == to)
  {
    ChunkAt(chunks, i);
    var before := |Concat(chunks[..i])|;
    var at := from + before;
    assert i + 1 == |chunks| ==> chunks[..i + 1] == chunks;
    SliceOfSlice(content, from, to, before, before + |chunks[i]|);
    SliceOfSlice(content, at, at + |chunks[i]|, a, b);
  }

  // ---------------------------------------------------------------------------
  // Where chunks are, and reading from a position before the window
  // ---------------------------------------------------------------------------

  function Max(a: int, b: int): int { if a > b then a else b }

  /** Where a slice bound of Python ends up: a negative one counts from the end. */
  function Bound(i: int, n: nat): (b: nat)
    ensures b <= n
  {
    if i >= 0 then Min(i, n) else if i + n >= 0 then i + n else 0
  }

  /** Python's `s[a:b]`. */
  function PySlice(s: seq<byte>, a: int, b: int): seq<byte> {
    if Bound(a, |s|) <= Bound(b, |s|) then s[Bound(a, |s|)..Bound(b, |s|)] else []
  }

  /** The length of the first `i` chunks. */
  function Lengths(chunks: seq<seq<byte>>, i: nat): nat
    requires i <= |chunks|
  {
    if i == 0 then 0 else Lengths(chunks, i - 1) + |chunks[i - 1]|
  }

  lemma {:induction false} LengthsExact(chunks: seq<seq<byte>>, i: nat)
    requires i <= |chunks|
    ensures Lengths(chunks, i) == |Concat(chunks[..i])|
  {
    if i > 0 {
      LengthsExact(chunks, i - 1);
      ChunkAt(chunks, i - 1);
    }
  }

  /** Chunk `i` starts at `at`, or there is none and the window ends there. */
  predicate Starts(chunks: seq<seq<byte>>, from: nat, to: nat, i: nat, at: int) {
    i <= |chunks| && at == from + Lengths(chunks, i) <= to && (i == |chunks| <==> at == to)
  }

  lemma WindowStarts(content: seq<byte>, chunks: seq<seq<byte>>, from: nat, to: nat)
    requires IsWindow(content, chunks, from, to)
    ensures Starts(chunks, from, to, 0, from)
  {
    if chunks != [] { assert Concat(chunks) == chunks[0] + Concat(chunks[1..]); }
  }

  lemma WholeChunk(content: seq<byte>, chunks: seq<seq<byte>>, from: nat, to: nat, i: nat, at: nat)
    requires IsWindow(content, chunks, from, to) && Starts(chunks, from, to, i, at) && i < |chunks|
    ensures 0 < |chunks[i]| && at + |chunks[i]| <= to && chunks[i] == content[at..at + |chunks[i]|]
    ensures Starts(chunks, from, to, i + 1, at + |chunks[i]|)
  {
    LengthsExact(chunks, i);
    LengthsExact(chunks, i + 1);
    WindowPart(content, chunks, from, to, i, 0, |chunks[i]|);
    if i + 1 < |chunks| {
      WindowPart(content, chunks, from, to, i + 1, 0, 0);
    }
  }

  lemma InWindow(content: seq<byte>, chunks: seq<seq<byte>>, from: nat, to: nat)
    requires IsWindow(content, chunks, from, to)
    ensures chunks == [] <==> from == to
  {
    if chunks != [] { assert Concat(chunks) == chunks[0] + Concat(chunks[1..]); }
  }

  /** What is taken of a chunk for `r` bytes, from `offset` on. */
  function Piece(c: seq<byte>, offset: int, r: int): seq<byte> { PySlice(c, offset, offset + Min(|c| - offset, r)) }

  lemma SliceJoin(content: seq<byte>, a: nat, b: nat, c: nat)
    requires a <= b <= c <= |content|
    ensures content[a..b] + content[b..c] == content[a..c]
  {
  }

  /** A piece of chunk `i`, which starts at `at`, goes on where `data` ends. */
  lemma NextPiece(content: seq<byte>, chunks: seq<seq<byte>>, from: nat, to: nat, i: nat, at: nat, start: nat, p: nat,
                  offset: nat, size: nat)
    requires IsWindow(content, chunks, from, to) && i < |chunks| && Starts(chunks, from, to, i, at)
    requires start <= p == at + offset && offset + size <= |chunks[i]|
    ensures p + size <= to && 0 < |chunks[i]| && Starts(chunks, from, to, i + 1, at + |chunks[i]|)
    ensures content[start..p] + chunks[i][offset..offset + size] == content[start..p + size]
  {
    WholeChunk(content, chunks, from, to, i, at);
    SliceOfSlice(content, at, at + |chunks[i]|, offset, offset + size);
    SliceJoin(content, start, p, p + size);
  }

  /** What a read of `n` from `p`, before the window, returns of the buffered bytes: the offset into the first
      chunk is negative, and counts from that chunk's end, so that the first piece is not what a file would
      return there. Then come the bytes behind the chunk. */
  function Before(content: seq<byte>, x: seq<byte>, from: nat, end: nat, p: int, n: nat): seq<byte>
    requires p < from && end <= |content|
  {
    Piece(x, p - from, n) + Bytes(content, from + |x|, Min(p + n, end))
  }

  /** Bytes p..q of the stream, none if there are none. */
  function Bytes(content: seq<byte>, p: int, q: int): seq<byte>
    requires q <= |content|
  {
    if 0 <= p < q then content[p..q] else []
  }

  /** What that is, exactly, with the position `k` bytes before a first chunk that is at least as long: the
      stream's bytes one chunk length further on, or nothing for sizes from `k` up to the chunk's length. */
  lemma BeforeNear(content: seq<byte>, from: nat, to: nat, end: nat, p: int, n: nat)
    requires p < from <= to <= end <= |content| && from - p <= to - from
    ensures
      var x, k := content[from..to], from - p;
      var data := Before(content, x, from, end, p, n);
      && (n < k ==> data == content[p + |x|..p + |x| + n])
      && (k <= n < |x| ==> data == [])
      && (|x| <= n ==> data == Bytes(content, p + |x|, Min(p + n, end)))
  {
    var k, length := from - p, to - from;
    var size := Min(length + k, n);
    BeforeBounds(content, from, to, end, p, n, length - k, if n < k then length + n - k else size - k);
  }

  /** From further before: nothing until the read gets within a chunk's length of the window, and then
      the chunk's front and what follows it. */
  lemma BeforeFar(content: seq<byte>, from: nat, to: nat, end: nat, p: int, n: nat)
    requires p < from <= to <= end <= |content| && from - p > to - from
    ensures
      var x, k := content[from..to], from - p;
      var data := Before(content, x, from, end, p, n);
      && (n < k - |x| ==> data == [])
      && (k - |x| <= n < k ==> data == content[from..p + n + |x|])
      && (k <= n ==> data == Bytes(content, from, Min(p + n, end)))
  {
    var k, length := from - p, to - from;
    var size := Min(length + k, n);
    BeforeBounds(content, from, to, end, p, n, 0, if n < k - length then 0 else if n < k then length + n - k else size - k);
  }

  lemma BeforeBounds(content: seq<byte>, from: nat, to: nat, end: nat, p: int, n: nat, a: nat, b: nat)
    requires p < from <= to <= end <= |content| && a <= to - from && b <= to - from
    requires a == Bound(p - from, to - from) && b == Bound(p - from + Min(to - p, n), to - from)
    ensures
      var data := Before(content, content[from..to], from, end, p, n);
      && (n >= from - p && a <= b ==> data == Bytes(content, from + a, Min(p + n, end)))
      && (n < from - p || a > b ==> data == if a <= b then content[from + a..from + b] else Bytes(content, to, Min(p + n, end)))
  {
    PieceBounds(content, from, to, p - from, n, a, b);
    var q := Min(p + n, end);
    var piece := if a <= b then content[from + a..from + b] else [];
    assert Before(content, content[from..to], from, end, p, n) == piece + Bytes(content, to, q);
    if n >= from - p && a <= b {
      BytesJoin(content, from + a, from + b, to, q);
    } else if a <= b {
      assert Bytes(content, to, q) == [];
    } else {
      assert [] + Bytes(content, to, q) == Bytes(content, to, q);
    }
  }

  lemma PieceBounds(content: seq<byte>, from: nat, to: nat, offset: int, n: nat, a: nat, b: nat)
    requires from <= to <= |content| && a <= to - from && b <= to - from
    requires a == Bound(offset, to - from) && b == Bound(offset + Min(to - from - offset, n), to - from)
    ensures Piece(content[from..to], offset, n) == if a <= b then content[from + a..from + b] else []
  {
    if a <= b { SliceOfSlice(content, from, to, a, b); }
  }

  lemma BytesJoin(content: seq<byte>, a: nat, b: nat, to: nat, q: int)
    requires a <= b <= to <= |content| && q <= |content| && (if q < to then b == q else b == to)
    ensures content[a..b] + Bytes(content, to, q) == Bytes(content, a, q)
  {
  }

  lemma BeforeParts(content: seq<byte>, x: seq<byte>, from: nat, end: nat, p: int, n: nat, size: nat, piece: seq<byte>)
    requires p < from && from + |x| <= end <= |content|
    requires size == Min(from + |x| - p, n) && piece == PySlice(x, p - from, p - from + size)
    ensures size == n ==> piece == Before(content, x, from, end, p, n)
    ensures size < n ==>
      from + |x| <= Min(p + n, end) &&
      piece + content[from + |x|..Min(p + n, end)] == Before(content, x, from, end, p, n)
  {
  }

  /** The stream read from. With `full` a read is short only at the end of the stream. */
  class InputStream {
    const content: seq<byte>
    const full: bool
    var pos: nat

    constructor (content: seq<byte>, full: bool)
      ensures this.content == content && this.full == full && pos == 0
    {
      this.content, this.full, pos := content, full, 0;
    }

    method Read(n: nat) returns (data: seq<byte>)
      requires pos <= |content|
      modifies this`pos
      ensures old(pos) <= pos <= |content| && data == content[old(pos)..pos] && |data| <= n
      ensures n > 0 && old(pos) < |content| ==> |data| > 0
      ensures full ==> |data| == Min(n, |content| - old(pos))
    {
      var most := Min(n, |content| - pos);
      var k: nat := most;
      if !full && most > 0 { k :| 1 <= k <= most; }
      data := content[pos..pos + k];
      pos := pos + k;
    }

    method ReadAll() returns (data: seq<byte>)
      requires pos <= |content|
      modifies this`pos
      ensures pos == |content| && data == content[old(pos)..]
    {
      data := content[pos..];
      pos := |content|;
    }
  }

  class Wrapper {
    const stream: InputStream
    const maxBuffer: nat
    var buffer: seq<seq<byte>>
    var bufferStart: nat
    var bufferEnd: nat
    var position: int

    /** The deque is the window of the last `maxBuffer` bytes that were buffered. */
    ghost predicate Valid()
      reads this, stream
    {
      && stream.pos <= |stream.content|
      && bufferStart == WindowStart(maxBuffer, bufferEnd) && bufferEnd <= stream.pos
      && IsWindow(stream.content, buffer, bufferStart, bufferEnd)
      && (Synced() || stream.pos == |stream.content|)
      && bufferEnd - maxBuffer <= position
    }

    /** All that was read from the stream went through the buffer: true until a read-all finds data. */
    ghost predicate Synced()
      reads this, stream
    {
      bufferEnd == stream.pos
    }

    /** The position is in the window, or behind it when the stream has ended: a read-all leaves it there,
        and so does a seek from the end by a negative offset. Only a seek from the end by more bytes than
        there are leaves the position before the window. */
    ghost predicate Placed()
      reads this, stream
    {
      bufferStart <= position && (position <= bufferEnd || stream.pos == |stream.content|)
    }

    constructor (stream: InputStream, maxBuffer: nat)
      requires stream.pos == 0
      ensures Valid() && Synced() && Placed() && position == 0 && bufferEnd == 0
      ensures this.stream == stream && this.maxBuffer == maxBuffer
    {
      this.stream, this.maxBuffer := stream, maxBuffer;
      buffer, bufferStart, bufferEnd, position := [], 0, 0, 0;
    }

    /** The buffer must hold one upload chunk, unless the check is skipped. */
    static method Create(stream: InputStream, maxBuffer: nat, chunk: nat, small: bool)
      returns (r: Result<Wrapper, Error>)
      requires stream.pos == 0
      ensures r.Ok? <==> small || chunk <= maxBuffer
      ensures r.Ok? ==> fresh(r.value) && r.value.Valid() && r.value.Synced() && r.value.Placed()
      ensures r.Ok? ==> r.value.stream == stream && r.value.maxBuffer == maxBuffer && r.value.position == 0
    {
      if !small && maxBuffer < chunk { return Err(BufferTooSmall); }
      var w := new Wrapper(stream, maxBuffer);
      return Ok(w);
    }

    /** Where a read of `n` leaves the buffered part. */
    ghost function BufferedTo(n: nat): (q: int)
      reads this
    {
      if position < bufferEnd then Min(position + n, bufferEnd) else position
    }

    /** What the buffered part of a read of `n` returns: from the window on the stream's bytes. */
    ghost function BufferedData(n: nat): seq<byte>
      requires Valid() && (position < bufferEnd ==> buffer != [])
      reads this, stream
    {
      if position >= bufferStart then Bytes(stream.content, position, Min(position + n, bufferEnd))
      else Before(stream.content, buffer[0], bufferStart, bufferEnd, position, n)
    }

    /** How far reading on can get. */
    ghost function Reach(): int
      reads this, stream
    {
      Max(position, bufferEnd) + (|stream.content| - stream.pos)
    }

    /** The length of the stream, as far as the buffer will ever know it. */
    ghost function Length(): nat
      reads this, stream
    {
      if Synced() then |stream.content| else bufferEnd
    }

    /** What callers can tell. */
    ghost function Outside(): View
      reads this
    {
      View(position, bufferEnd)
    }

    /** The loop of `read` that finds the chunk the position is in, and the place where that chunk starts.
        For a position before the window it is the first chunk. */
    method FindChunk() returns (posInBuffer: nat, i: nat)
      requires Valid() && position < bufferEnd && buffer != []
      ensures i < |buffer| && Starts(buffer, bufferStart, bufferEnd, i, posInBuffer)
      ensures position <= posInBuffer + |buffer[i]|
      ensures if position < bufferStart then i == 0 && posInBuffer == bufferStart else posInBuffer <= position
    {
      posInBuffer, i := bufferStart, 0;
      WindowStarts(stream.content, buffer, bufferStart, bufferEnd);
      while posInBuffer + |buffer[i]| < position
        invariant i < |buffer| && Starts(buffer, bufferStart, bufferEnd, i, posInBuffer)
        invariant if position < bufferStart then i == 0 && posInBuffer == bufferStart else posInBuffer <= position
        decreases |buffer| - i
      {
        WholeChunk(stream.content, buffer, bufferStart, bufferEnd, i, posInBuffer);
        posInBuffer := posInBuffer + |buffer[i]|;
        i := i + 1;
      }
    }

    /** The loop of `read` that takes data from the chunks, from inside chunk `i` on, which starts at `at`. */
    method TakeChunks(n: nat, at: nat, i: nat) returns (data: seq<byte>, remaining: nat)
      requires Valid() && Starts(buffer, bufferStart, bufferEnd, i, at) && at <= position <= bufferEnd
      requires if i < |buffer| then position <= at + |buffer[i]| else position == at
      modifies this`position
      ensures position == Min(old(position) + n, bufferEnd) && data == stream.content[old(position)..position]
      ensures remaining == n - (position - old(position))
    {
      ghost var start, content := position, stream.content;
      var posInBuffer, j := at, i;
      data, remaining := [], n;
      while posInBuffer < bufferEnd && remaining > 0
        invariant Starts(buffer, bufferStart, bufferEnd, j, posInBuffer) && i <= j
        invariant start <= position <= bufferEnd && data == content[start..position]
        invariant remaining == n - (position - start)
        invariant remaining > 0 ==> if j == i then position == start && posInBuffer == at else position == posInBuffer
        decreases |buffer| - j
      {
        var length, offset := |buffer[j]|, position - posInBuffer;
        var size := Min(length - offset, remaining);
        NextPiece(content, buffer, bufferStart, bufferEnd, j, posInBuffer, start, position, offset, size);
        data := data + buffer[j][offset..offset + size];
        remaining := remaining - size;
        posInBuffer := posInBuffer + length;
        j := j + 1;
        position := position + size;
      }
    }

    /** The same from before the window: the first turn of the loop, then the others. */
    method TakeBefore(n: nat) returns (data: seq<byte>, remaining: nat)
      requires Valid() && position < bufferStart && buffer != []
      modifies this`position
      ensures position == Min(old(position) + n, bufferEnd)
      ensures data == Before(stream.content, buffer[0], bufferStart, bufferEnd, old(position), n)
      ensures remaining == n - (position - old(position))
    {
      WindowStarts(stream.content, buffer, bufferStart, bufferEnd);
      WholeChunk(stream.content, buffer, bufferStart, bufferEnd, 0, bufferStart);
      var length, offset := |buffer[0]|, position - bufferStart;
      var size := Min(length - offset, n);
      data := PySlice(buffer[0], offset, offset + size);
      remaining := n - size;
      position := position + size;
      BeforeParts(stream.content, buffer[0], bufferStart, bufferEnd, old(position), n, size, data);
      if remaining > 0 {
        var more;
        more, remaining := TakeChunks(remaining, bufferStart + length, 1);
        data := data + more;
      }
    }

    /** The part of `read` that serves a position behind the end of the buffer: finds the chunk the
        position is in, then takes what is asked for from there on. */
    method ReadBuffered(n: nat) returns (data: seq<byte>, remaining: nat)
      requires Valid() && position < bufferEnd && buffer != []
      modifies this`position
      ensures position == old(BufferedTo(n)) <= bufferEnd && data == old(BufferedData(n))
      ensures remaining == n - (position - old(position)) && (remaining > 0 ==> position == bufferEnd)
    {
      var posInBuffer, i := FindChunk();
      if position >= bufferStart {
        data, remaining := TakeChunks(n, posInBuffer, i);
      } else {
        data, remaining := TakeBefore(n);
      }
    }

    /** The loop of `read` that evicts whole chunks while the window is too long. */
    method EvictChunks() returns (oldest: Option<seq<byte>>)
      requires IsWindow(stream.content, buffer, bufferStart, bufferEnd)
      modifies this`buffer, this`bufferStart
      ensures IsWindow(stream.content, buffer, bufferStart, bufferEnd) && bufferEnd - bufferStart <= maxBuffer
      ensures oldest.None? ==> bufferStart == old(bufferStart)
      ensures oldest.Some? ==> Evicted(stream.content, oldest.value, bufferStart, bufferEnd, maxBuffer)
    {
      oldest := None;
      while bufferEnd - bufferStart > maxBuffer
        invariant IsWindow(stream.content, buffer, bufferStart, bufferEnd)
        invariant if oldest.None? then bufferStart == old(bufferStart)
                  else Evicted(stream.content, oldest.value, bufferStart, bufferEnd, maxBuffer)
        decreases |buffer|
      {
        Evict(stream.content, buffer, bufferStart, bufferEnd, maxBuffer);
        oldest := Some(buffer[0]);
        bufferStart := bufferStart + |buffer[0]|;
        buffer := buffer[1..];
      }
    }

    /** The part of `read` that buffers new data: appends it, evicts, then puts back the end of the last
        chunk evicted. */
    method Buffer(newData: seq<byte>)
      requires IsWindow(stream.content, buffer, bufferStart, bufferEnd) && newData != []
      requires bufferStart == WindowStart(maxBuffer, bufferEnd)
      requires bufferEnd + |newData| == stream.pos <= |stream.content| && stream.pos - maxBuffer <= position
      requires newData == stream.content[bufferEnd..stream.pos]
      modifies this`buffer, this`bufferStart, this`bufferEnd
      ensures Valid() && bufferEnd == stream.pos
    {
      WindowGrow(stream.content, buffer, bufferStart, bufferEnd, newData);
      buffer := buffer + [newData];
      bufferEnd := bufferEnd + |newData|;
      var oldest := EvictChunks();
      if oldest.Some? && |oldest.value| > 0 {
        Refill(stream.content, buffer, bufferStart, bufferEnd, maxBuffer, oldest.value);
        var refill := maxBuffer - (bufferEnd - bufferStart);
        if refill != 0 {
          buffer := [oldest.value[|oldest.value| - refill..]] + buffer;
          bufferStart := bufferStart - refill;
        }
      }
    }

    /** `read(n)` in any state: first what is buffered, then what the stream gives. From before the window with
        nothing buffered it raises. */
    method ReadSized(n: nat) returns (r: Result<seq<byte>, Error>)
      requires Valid()
      modifies this, stream`pos
      ensures Valid() && Synced() == old(Synced()) && old(stream.pos) <= stream.pos
      ensures r.Err? <==> old(position < bufferEnd && buffer == [])
      ensures r.Err? ==> r.error == EmptyDeque && unchanged(this) && unchanged(stream)
      ensures r.Ok? ==> r.value == old(BufferedData(n)) + stream.content[old(stream.pos)..stream.pos]
      ensures r.Ok? ==> position == old(BufferedTo(n)) + (stream.pos - old(stream.pos)) <= old(position) + n
      ensures r.Ok? ==> bufferEnd == old(bufferEnd) + (stream.pos - old(stream.pos))
      ensures r.Ok? && n > 0 && position == old(position) ==> position >= bufferEnd && stream.pos == |stream.content|
      ensures r.Ok? && stream.full ==> position == Min(old(position) + n, old(Reach()))
    {
      var data, remaining := [], n;
      if position < bufferEnd {
        if |buffer| == 0 { return Err(EmptyDeque); }
        data, remaining := ReadBuffered(n);
      }
      if remaining > 0 {
        var newData := stream.Read(remaining);
        data := data + newData;
        if |newData| > 0 {
          position := position + |newData|;
          Buffer(newData);
        }
        assert newData == stream.content[old(stream.pos)..stream.pos];
      }
      return Ok(data);
    }

    /** The same in the window or at the end, where it cannot raise. */
    method ReadPlaced(n: nat) returns (data: seq<byte>)
      requires Valid() && Placed()
      modifies this, stream`pos
      ensures Valid() && Placed() && Synced() == old(Synced())
      ensures PlacedRead(stream.content, old(bufferEnd), old(position), n, old(stream.pos), stream.pos, data)
      ensures position == old(BufferedTo(n)) + (stream.pos - old(stream.pos))
      ensures bufferEnd == old(bufferEnd) + (stream.pos - old(stream.pos)) && old(stream.pos) <= stream.pos
      ensures stream.full ==> position == Min(old(position) + n, old(Reach()))
    {
      InWindow(stream.content, buffer, bufferStart, bufferEnd);
      var r := ReadSized(n);
      data := r.value;
    }

    /** `read(n)` in the window or at the end. As long as the window is intact, the result is what a plain file
        would return; after a read-all that found data it is so if and only if no byte beyond the buffer is
        asked for that the stream had. */
    method Read(n: nat) returns (data: seq<byte>)
      requires Valid() && Placed()
      modifies this, stream`pos
      ensures Valid() && Placed() && Synced() == old(Synced()) && position == old(position) + |data|
      ensures bufferEnd == old(bufferEnd) + (stream.pos - old(stream.pos)) && old(stream.pos) <= stream.pos
      ensures position == old(BufferedTo(n)) + (stream.pos - old(stream.pos))
      ensures old(position) > |stream.content| ==> data == []
      ensures old(Synced() && position <= |stream.content|) ==>
        position <= |stream.content| && data == stream.content[old(position)..position]
      ensures !old(Synced()) ==> data == Bytes(stream.content, old(position), Min(old(position) + n, bufferEnd))
      ensures stream.full ==>
        (data == PlainRead(stream.content, old(position), n) <==>
         n == 0 || old(Synced()) || old(position) + n <= bufferEnd || old(position) >= |stream.content|)
    {
      ghost var p, end, pos := position, bufferEnd, stream.pos;
      data := ReadPlaced(n);
      ReadWhere(stream.content, end, p, n, pos, stream.pos, data);
      if stream.full { ReadWhole(stream.content, end, p, n, pos, stream.pos, data); }
    }

    /** `read()`: everything that is left. New data does not go through the buffer, so afterwards the
        window is that of the whole stream read so far if and only if there was none. */
    method ReadAll() returns (r: Result<seq<byte>, Error>)
      requires Valid()
      modifies this`position, stream`pos
      ensures Valid() && (r.Err? <==> old(position < bufferEnd && buffer == []))
      ensures r.Err? ==> r.error == EmptyDeque && position == old(position) && stream.pos == old(stream.pos)
      ensures r.Ok? ==> r.value == old(BufferedData(maxBuffer)) + stream.content[old(stream.pos)..]
      ensures r.Ok? ==> position == old(Reach()) && stream.pos == |stream.content|
      ensures r.Ok? ==> (Synced() <==> old(Synced()) && old(stream.pos) == |stream.content|)
      ensures old(Placed()) ==> r.Ok? && Placed()
      ensures old(Placed() && Synced() && position <= |stream.content|) ==>
        r.value == stream.content[old(position)..] && position == |stream.content|
    {
      var data, remaining := [], maxBuffer;
      if position < bufferEnd {
        if |buffer| == 0 { return Err(EmptyDeque); }
        data, remaining := ReadBuffered(maxBuffer);
      }
      var newData := stream.ReadAll();
      data := data + newData;
      position := position + |newData|;
      return Ok(data);
    }

    function Tell(): int
      reads this
    {
      position
    }

    /** `seek`. An absolute seek is granted exactly inside the window. A seek from the end first reads as
        far as it can, and then lands that far before: in the window if and only if the offset is no longer
        than the window then is. After a read-all that found data, reading on ends at the end of the buffer,
        so that from inside it the landing is before the right place. */
    method Seek(offset: int, whence: Whence) returns (r: Result<(), Error>)
      requires Valid()
      modifies this, stream`pos
      ensures Valid() && Synced() == old(Synced())
      ensures r.Err? ==> unchanged(this) && unchanged(stream)
      ensures whence.Set? ==> (r.Ok? <==> old(bufferStart) <= offset <= old(bufferEnd))
      ensures whence.Set? && r.Ok? ==>
        position == offset && Placed() && bufferEnd == old(bufferEnd) && stream.pos == old(stream.pos)
      ensures whence.End? ==> (r.Ok? <==> offset <= maxBuffer && old(position >= bufferEnd || buffer != []))
      ensures whence.End? && r.Ok? && maxBuffer == 0 ==>
        position == old(position) - offset && bufferEnd == old(bufferEnd) && stream.pos == old(stream.pos)
      ensures whence.End? && r.Ok? && maxBuffer > 0 ==>
        && position == old(Reach()) - offset && stream.pos == |stream.content| && (Placed() <==> position >= bufferStart)
        && bufferEnd == old(bufferEnd) + (stream.pos - old(stream.pos))
      ensures whence.End? && r.Ok? && maxBuffer > 0 && old(Synced() && position <= bufferEnd) ==>
        && position == |stream.content| - offset
        && (bufferStart <= position <= bufferEnd <==> 0 <= offset <= Min(maxBuffer, |stream.content|))
      ensures whence.End? && r.Ok? && maxBuffer > 0 && !old(Synced()) ==>
        (position == |stream.content| - offset <==> old(position) == |stream.content|)
      ensures whence.Other? ==> r.Err?
    {
      match whence {
        case Set =>
          if offset < bufferStart || offset > bufferEnd { return Err(NotBuffered); }
          position := offset;
        case End =>
          if offset > maxBuffer { return Err(EndOffsetTooLarge); }
          var toEnd := ReadToEnd();
          if toEnd.Err? { return Err(toEnd.error); }
          position := position - offset;
        case Other =>
          return Err(InvalidMode);
      }
      return Ok(());
    }

    /** The loop of `seek` that reads until nothing more comes. */
    method ReadToEnd() returns (r: Result<(), Error>)
      requires Valid()
      modifies this, stream`pos
      ensures Valid() && Synced() == old(Synced())
      ensures r.Err? <==> old(position < bufferEnd && buffer == [])
      ensures r.Err? ==> unchanged(this) && unchanged(stream)
      ensures r.Ok? && maxBuffer == 0 ==>
        position == old(position) && bufferEnd == old(bufferEnd) && stream.pos == old(stream.pos)
      ensures r.Ok? && maxBuffer > 0 ==> position == old(Reach()) && stream.pos == |stream.content|
      ensures r.Ok? ==> bufferEnd == old(bufferEnd) + (stream.pos - old(stream.pos)) <= position
    {
      ghost var reach := Reach();
      if position < bufferEnd && |buffer| > 0 { WholeBuffer(); }
      var data := ReadSized(maxBuffer);
      if data.Err? { return Err(data.error); }
      while |data.value| > 0
        invariant Valid() && Synced() == old(Synced()) && position >= bufferEnd && Reach() == reach
        invariant data.Ok? && bufferEnd == old(bufferEnd) + (stream.pos - old(stream.pos))
        invariant maxBuffer == 0 ==>
          position == old(position) && stream.pos == old(stream.pos) && data.value == []
        invariant data.value == [] && maxBuffer > 0 ==> stream.pos == |stream.content|
        decreases |stream.content| - stream.pos, |data.value|
      {
        data := ReadSized(maxBuffer);
      }
      return Ok(());
    }

    /** A read of the buffer's size gets to the end of the buffer, and returns something of it. */
    lemma WholeBuffer()
      requires Valid() && position < bufferEnd && buffer != []
      ensures maxBuffer > 0 && BufferedTo(maxBuffer) == bufferEnd && BufferedData(maxBuffer) != []
    {
      WindowPart(stream.content, buffer, bufferStart, bufferEnd, 0, 0, 0);
    }
  }

  /** What a plain file returns. */
  function PlainRead(content: seq<byte>, p: int, n: nat): seq<byte> {
    if 0 <= p <= |content| then content[p..Min(p + n, |content|)] else []
  }

  /** A read from a position in the window or at the end: `pos` and `now` are the stream's positions before
      and after, `end` is the end of the window. */
  ghost predicate PlacedRead(content: seq<byte>, end: nat, p: int, n: nat, pos: nat, now: nat, data: seq<byte>) {
    && 0 <= p && end <= pos <= now <= |content|
    && (end == pos || pos == |content|) && (p <= end || pos == |content|)
    && (if p < end then Min(p + n, end) else p) + (now - pos) <= p + n
    && data == Bytes(content, p, Min(p + n, end)) + content[pos..now]
  }

  lemma ReadWhere(content: seq<byte>, end: nat, p: int, n: nat, pos: nat, now: nat, data: seq<byte>)
    requires PlacedRead(content, end, p, n, pos, now, data)
    ensures
      var q := (if p < end then Min(p + n, end) else p) + (now - pos);
      && q == p + |data| && (p > |content| ==> data == [])
      && (end == pos && p <= |content| ==> q <= |content| && data == content[p..q])
      && (end != pos ==> data == Bytes(content, p, Min(p + n, end)))
  {
    if end == pos && p < end { SliceJoin(content, p, Min(p + n, end), Min(p + n, end) + (now - pos)); }
  }

  /** Against a plain file, if the stream gave all it could. */
  lemma ReadWhole(content: seq<byte>, end: nat, p: int, n: nat, pos: nat, now: nat, data: seq<byte>)
    requires PlacedRead(content, end, p, n, pos, now, data)
    requires (if p < end then Min(p + n, end) else p) + (now - pos) == Min(p + n, Max(p, end) + (|content| - pos))
    ensures data == PlainRead(content, p, n) <==> n == 0 || end == pos || p + n <= end || p >= |content|
  {
    ReadWhere(content, end, p, n, pos, now, data);
  }

  /** After a read-all, a seek back to the start is granted, but a read from there on silently ends where
      the buffer does, and a seek to the end goes there too. */
  method ReadAllBreaksWindow() returns (all: seq<byte>, again: seq<byte>, end: int)
    ensures all == [2, 3] && again == [1] && end == 1
  {
    var stream := new InputStream([1, 2, 3], true);
    var w := new Wrapper(stream, 10);
    var first := w.Read(1);
    assert first == PlainRead(stream.content, 0, 1) == [1];
    var rest := w.ReadAll();
    all := rest.value;
    var back := w.Seek(0, Set);
    again := w.Read(3);
    assert again == stream.content[0..1];
    var toEnd := w.Seek(0, End);
    end := w.Tell();
  }

  /** A seek from the end by more bytes than the stream has is granted. The next read returns nothing, as
      if the stream had ended, and only the one after it what is there; and if the stream was empty, it
      raises. */
  method SeekBeforeStart(empty: bool) returns (position: int, first: Result<seq<byte>, Error>, second: Result<seq<byte>, Error>)
    ensures position == if empty then -2 else -1
    ensures first == if empty then Err(EmptyDeque) else Ok([])
    ensures second == if empty then Err(EmptyDeque) else Ok([7])
  {
    var stream := new InputStream(if empty then [] else [7], true);
    var w := new Wrapper(stream, 10);
    var s := w.Seek(2, End);
    position := w.Tell();
    if !empty {
      OnlyChunk(w.buffer, 7);
      assert PySlice([7], -1, 0) == [];
    }
    first := w.ReadSized(1);
    second := w.ReadSized(1);
  }

  lemma {:induction false} AtLeastAsLong(chunks: seq<seq<byte>>)
    requires NoEmptyChunk(chunks)
    ensures |Concat(chunks)| >= |chunks|
  {
    if chunks != [] { AtLeastAsLong(chunks[1..]); }
  }

  lemma OnlyChunk(chunks: seq<seq<byte>>, x: byte)
    requires Concat(chunks) == [x] && NoEmptyChunk(chunks)
    ensures chunks == [[x]]
  {
    AtLeastAsLong(chunks);
    assert Concat(chunks) == chunks[0] + Concat(chunks[1..]) == chunks[0];
  }

  // ---------------------------------------------------------------------------
  // Whole runs of sized reads and seeks
  // ---------------------------------------------------------------------------

  datatype Request = ReadSome(n: nat) | SeekTo(offset: int) | SeekFromEnd(offset: int)

  /** What was done: a read by which the position moved `got` on, or an attempt to seek; or what would have
      raised because the deque is empty. */
  datatype Op = DidRead(got: nat) | DidSeek(offset: int) | DidSeekEnd(offset: int) | DidRaise

  /** The wrapper as its callers see it: where it is, and how far it has ever read. The window follows
      from `end`. */
  datatype View = View(position: int, end: nat)

  /** Nothing is buffered, and the position is before the start. */
  predicate Raises(v: View) { v.position < 0 && v.end == 0 }

  /** The operation is possible on a stream of `len` bytes. */
  predicate Possible(len: nat, max: nat, v: View, op: Op) {
    match op
    case DidRead(got) => v.position + got <= Max(v.position, v.end) + (len - v.end) && !Raises(v)
    case DidSeek(_) => true
    case DidSeekEnd(o) => o > max || !Raises(v)
    case DidRaise => Raises(v)
  }

  predicate Granted(max: nat, v: View, op: Op) {
    match op
    case DidRead(_) => true
    case DidSeek(o) => WindowStart(max, v.end) <= o <= v.end
    case DidSeekEnd(o) => o <= max
    case DidRaise => false
  }

  /** A refused seek changes nothing. */
  function Apply(len: nat, max: nat, v: View, op: Op): View
    requires v.end <= len && Possible(len, max, v, op)
  {
    if !Granted(max, v, op) then v
    else
      match op
      case DidRead(got) => View(v.position + got, v.end + Max(0, v.position + got - Max(v.position, v.end)))
      case DidSeek(o) => View(o, v.end)
      case DidSeekEnd(o) =>
        if max == 0 then View(v.position - o, v.end)
        else View(Max(v.position, v.end) + (len - v.end) - o, len)
  }

  /** The same operation on the file pointer of a plain file. */
  function FileApply(len: nat, p: int, op: Op): int {
    match op
    case DidRead(got) => p + got
    case DidSeek(o) => o
    case DidSeekEnd(o) => len - o
    case DidRaise => p
  }

  /** The operation was possible, was granted as it should be, and led to `v'`. */
  predicate Does(len: nat, max: nat, v: View, op: Op, granted: bool, v': View) {
    v.end <= len && Possible(len, max, v, op) && granted == Granted(max, v, op) && v' == Apply(len, max, v, op)
  }

  /** A read, seen from outside. */
  lemma ReadView(len: nat, max: nat, v: View, n: nat, v': View)
    requires v.end <= v'.end <= len && !Raises(v)
    requires
      var q := if v.position < v.end then Min(v.position + n, v.end) else v.position;
      v'.position == q + (v'.end - v.end) <= v.position + n
    ensures v.position <= v'.position && Does(len, max, v, DidRead(v'.position - v.position), true, v')
  {
  }

  /** A granted seek from the end, seen from outside. */
  lemma SeekEndView(len: nat, max: nat, v: View, o: int, v': View)
    requires v.end <= len && o <= max && !Raises(v)
    requires v' == if max == 0 then View(v.position - o, v.end) else View(Max(v.position, v.end) + (len - v.end) - o, len)
    ensures Does(len, max, v, DidSeekEnd(o), true, v')
  {
  }

  /** What an empty deque means. */
  lemma EmptyMeansRaises(w: Wrapper)
    requires w.Valid() && w.position < w.bufferEnd
    ensures w.buffer == [] <==> Raises(View(w.position, w.bufferEnd))
  {
    InWindow(w.stream.content, w.buffer, w.bufferStart, w.bufferEnd);
  }

  /** The class does what `Apply` says in every state, for streams that give fewer bytes than asked for as
      well. After a read-all that found data it does so as if the stream ended where the buffer does. */
  method Perform(w: Wrapper, request: Request) returns (op: Op, granted: bool)
    requires w.Valid()
    modifies w, w.stream`pos
    ensures w.Valid() && w.Synced() == old(w.Synced())
    ensures
      match request
      case ReadSome(n) =>
        op.DidRaise? || (op.DidRead? && op.got <= n && (w.stream.full ==> op.got == Min(n, old(w.Reach() - w.position))))
      case SeekTo(o) => op == DidSeek(o)
      case SeekFromEnd(o) => op.DidRaise? || op == DidSeekEnd(o)
    ensures Does(old(w.Length()), w.maxBuffer, old(w.Outside()), op, granted, w.Outside())
  {
    match request {
      case ReadSome(n) => op, granted := PerformRead(w, n);
      case SeekTo(o) =>
        var r := w.Seek(o, Set);
        op, granted := DidSeek(o), r.Ok?;
      case SeekFromEnd(o) => op, granted := PerformSeekEnd(w, o);
    }
  }

  method PerformRead(w: Wrapper, n: nat) returns (op: Op, granted: bool)
    requires w.Valid()
    modifies w, w.stream`pos
    ensures w.Valid() && w.Synced() == old(w.Synced())
    ensures op.DidRaise? || (op.DidRead? && op.got <= n && (w.stream.full ==> op.got == Min(n, old(w.Reach() - w.position))))
    ensures Does(old(w.Length()), w.maxBuffer, old(w.Outside()), op, granted, w.Outside())
  {
    ghost var v, len := w.Outside(), w.Length();
    if w.position < w.bufferEnd { EmptyMeansRaises(w); }
    var was := w.position;
    var data := w.ReadSized(n);
    if data.Err? { return DidRaise, false; }
    ReadView(len, w.maxBuffer, v, n, w.Outside());
    return DidRead(w.position - was), true;
  }

  method PerformSeekEnd(w: Wrapper, o: int) returns (op: Op, granted: bool)
    requires w.Valid()
    modifies w, w.stream`pos
    ensures w.Valid() && w.Synced() == old(w.Synced())
    ensures op.DidRaise? || op == DidSeekEnd(o)
    ensures Does(old(w.Length()), w.maxBuffer, old(w.Outside()), op, granted, w.Outside())
  {
    ghost var v, len := w.Outside(), w.Length();
    if w.position < w.bufferEnd { EmptyMeansRaises(w); }
    var r := w.Seek(o, End);
    if r.Err? { return if o > w.maxBuffer then DidSeekEnd(o) else DidRaise, false; }
    SeekEndView(len, w.maxBuffer, v, o, w.Outside());
    return DidSeekEnd(o), true;
  }

  /** Every operation is possible where it is tried. */
  predicate PossibleRun(len: nat, max: nat, v: View, ops: seq<Op>)
    requires v.end <= len
    decreases |ops|
  {
    ops != [] ==> Possible(len, max, v, ops[0]) && PossibleRun(len, max, Apply(len, max, v, ops[0]), ops[1..])
  }

  /** The positions a run visits; a seek from the end also reads up to the end. */
  function Visited(len: nat, max: nat, v: View, ops: seq<Op>): seq<int>
    requires v.end <= len && PossibleRun(len, max, v, ops)
    decreases |ops|
  {
    if ops == [] then [v.position]
    else
      [v.position] + (if ops[0].DidSeekEnd? && Granted(max, v, ops[0]) && max > 0 then [len] else []) +
      Visited(len, max, Apply(len, max, v, ops[0]), ops[1..])
  }

  function Run(len: nat, max: nat, v: View, ops: seq<Op>): View
    requires v.end <= len && PossibleRun(len, max, v, ops)
    decreases |ops|
  {
    if ops == [] then v else Run(len, max, Apply(len, max, v, ops[0]), ops[1..])
  }

  /** Where the file pointer of a plain file is after the operations that the wrapper granted. */
  function FileRun(len: nat, max: nat, v: View, p: int, ops: seq<Op>): int
    requires v.end <= len && PossibleRun(len, max, v, ops)
    decreases |ops|
  {
    if ops == [] then p
    else
      var p' := if Granted(max, v, ops[0]) then FileApply(len, p, ops[0]) else p;
      FileRun(len, max, Apply(len, max, v, ops[0]), p', ops[1..])
  }

  predicate IsLargest(m: nat, s: seq<int>) { m in s && forall x :: x in s ==> x <= m }

  ghost predicate ViewOk(len: nat, max: nat, v: View) { v.end - max <= v.position <= v.end <= len }

  /** No seek from the end goes beyond it. */
  predicate NotBeyond(ops: seq<Op>) { forall i :: 0 <= i < |ops| && ops[i].DidSeekEnd? ==> ops[i].offset >= 0 }

  lemma {:induction false} RunFromView(len: nat, max: nat, v: View, ops: seq<Op>)
    requires ViewOk(len, max, v) && PossibleRun(len, max, v, ops) && NotBeyond(ops)
    ensures
      var r := Run(len, max, v, ops);
      && ViewOk(len, max, r)
      && (max > 0 ==> r.position == FileRun(len, max, v, v.position, ops))
      && r.end >= v.end && (r.end == v.end || r.end in Visited(len, max, v, ops))
      && (forall x :: x in Visited(len, max, v, ops) ==> x <= r.end)
    decreases |ops|
  {
    if ops != [] {
      RunFromView(len, max, Apply(len, max, v, ops[0]), ops[1..]);
    }
  }

  /** After any run of reads and seeks on a fresh wrapper, refused ones included, its position is that of a
      plain file after the granted ones; and the next absolute seek is granted if and only if it goes back
      at most `max` bytes from the furthest position ever reached, and not beyond it. */
  lemma ReplayGuarantee(len: nat, max: nat, ops: seq<Op>, furthest: nat, offset: int)
    requires PossibleRun(len, max, View(0, 0), ops) && NotBeyond(ops)
    requires IsLargest(furthest, Visited(len, max, View(0, 0), ops))
    ensures
      var r := Run(len, max, View(0, 0), ops);
      && (max > 0 ==> r.position == FileRun(len, max, View(0, 0), 0, ops))
      && (Granted(max, r, DidSeek(offset)) <==> 0 <= offset && furthest - max <= offset <= furthest)
  {
    var v := View(0, 0);
    RunFromView(len, max, v, ops);
    var r := Run(len, max, v, ops);
    assert Visited(len, max, v, ops)[0] == 0;
    assert r.end == furthest;
  }
}
