/**
 * SmbFileStream: a System.IO.Stream over one open SMB file, keeping its own
 * position and length and moving data in chunks of at most 64 KiB.
 *
 * The remote file is an oracle per call: `readFile(offset, maxCount)` and
 * `writeFile(offset, data)` answer as ReadFile and WriteFile on the open
 * handle would. Exceptions become a Failure; whatever the stream changed
 * before throwing stays changed, as in the source. Offsets and lengths are
 * unbounded integers (the source's `long`).
 */
module SmbFileStreams {
  import opened Wrappers
  import opened LittleEndian
  import opened NtStatus
  import opened SmbHelpers

  /** MaxReadSize and MaxWriteSize of the open handle. */
  const MaxReadSize: nat := 65536
  const MaxWriteSize: nat := 65536

  const ReadFailureMessage: string := "Failed to read content from file"
  const WriteFailureMessage: string := "Failed to write content to file"

  /** The statuses Read and Write let through ValidateStatus. */
  const ReadAllowed: seq<NTStatus> := [STATUS_SUCCESS, STATUS_END_OF_FILE]
  const WriteAllowed: seq<NTStatus> := [STATUS_SUCCESS]

  function Min(a: int, b: int): int {
    if a <= b then a else b
  }

  function Max(a: int, b: int): int {
    if a >= b then a else b
  }

  /** The System.IO.SeekOrigin values: Begin = 0, Current = 1, End = 2, and UndefinedOrigin for any other number. */
  datatype SeekOriginValue = Begin | Current | End | UndefinedOrigin(value: int)

  /** A SeekOrigin: UndefinedOrigin never carries the number of a named origin. */
  type SeekOrigin = o: SeekOriginValue | o.UndefinedOrigin? ==> !(0 <= o.value <= 2) witness Begin

  /** Why a stream operation threw. */
  datatype StreamError =
    | InvalidPosition(requested: int, length: int)   // the Position setter's bounds check
    | InvalidBuffer                                  // MemoryStream refused (buffer, offset, count)
    | NotExpandable                                  // more data came back than the window has room for
    | Rejected(status: NTStatus)                     // ValidateStatus threw for this status
    | ShortWrite(expected: nat, written: int)        // the server wrote fewer bytes than sent

  /** ReadFile's answer: the status and the data, which may be null. */
  datatype ReadReply = ReadReply(status: NTStatus, data: Option<seq<byte>>)

  /** WriteFile's answer: the status and numberOfBytesWritten. */
  datatype WriteReply = WriteReply(status: NTStatus, bytesWritten: int)

  /** A chunk Read's loop copied, and whether the loop stops after it. */
  datatype Chunk = Chunk(data: seq<byte>, last: bool)

  /** One ReadFile request. */
  datatype ReadRequest = ReadRequest(offset: int, maxCount: nat)

  /** One WriteFile request. */
  datatype WriteRequest = WriteRequest(offset: int, data: seq<byte>)

  /** `new MemoryStream(buffer, offset, count)` accepts the window. */
  predicate ValidWindow(bufferLength: nat, offset: int, count: int) {
    0 <= offset && 0 <= count && count <= bufferLength - offset
  }

  /** The position Seek asks for; an undefined origin keeps the current one. */
  function SeekTarget(position: int, length: int, offset: int, origin: SeekOrigin): int {
    match origin
    case Begin => offset
    case Current => position + offset
    case End => length + offset
    case UndefinedOrigin(_) => position
  }

  // ---------------------------------------------------------------------
  // The Read loop as a function
  // ---------------------------------------------------------------------

  /**
   * What a Read does from `position` with `remaining` bytes of room: the
   * result (the bytes copied, or why it threw), the final position, the bytes
   * copied into the caller's buffer and the requests sent.
   */
  datatype ReadRun = ReadRun(result: Result<nat, StreamError>, position: int, delivered: seq<byte>,
                             requests: seq<ReadRequest>)

  /** The data of a reply, null read as empty. */
  function DataOf(reply: ReadReply): seq<byte> {
    if reply.data.Some? then reply.data.value else []
  }

  /** The run that ends the loop at this chunk, or None when the loop goes on past it. */
  function ReadStop(position: int, remaining: nat, request: ReadRequest, reply: ReadReply): Option<ReadRun> {
    var data := DataOf(reply);
    if reply.status != STATUS_SUCCESS && reply.status != STATUS_END_OF_FILE then Some(ReadRun(Failure(Rejected(reply.status)), position, [], [request]))
    else if |data| > remaining then
      // the position moves before MemoryStream.Write throws
      Some(ReadRun(Failure(NotExpandable), position + |data|, [], [request]))
    else if reply.status == STATUS_END_OF_FILE || |data| == 0 then
      Some(ReadRun(Success(|data|), position + |data|, data, [request]))
    else None
  }

  /** The `while (localOffset < count && _position < _length)` loop of Read. */
  function ReadLoop(position: int, length: int, remaining: nat, readFile: (int, nat) -> ReadReply): ReadRun
    decreases remaining, 1
  {
    if remaining == 0 || position >= length then ReadRun(Success(0), position, [], [])
    else ReadStep(position, length, remaining, readFile)
  }

  /** One pass of the loop's body, followed by the rest of the loop unless it stops. */
  function ReadStep(position: int, length: int, remaining: nat, readFile: (int, nat) -> ReadReply): ReadRun
    decreases remaining, 0
  {
    var request := ReadRequest(position, Min(remaining, MaxReadSize));
    var reply := readFile(request.offset, request.maxCount);
    var stop := ReadStop(position, remaining, request, reply);
    if stop.Some? then stop.value
    else
      var data := DataOf(reply);
      ReadAfter(|data|, data, [request], ReadLoop(position + |data|, length, remaining - |data|, readFile))
  }

  /** `whole` is the run that copied `delivered` and sent `sent` first and then runs ReadLoop. */
  ghost predicate ReadSoFar(whole: ReadRun, copied: nat, delivered: seq<byte>, sent: seq<ReadRequest>,
                            position: int, length: int, remaining: nat, readFile: (int, nat) -> ReadReply) {
    whole == ReadAfter(copied, delivered, sent, ReadLoop(position, length, remaining, readFile))
  }

  /**
   * ReadStep from `before` with `room` bytes of room, seen through one chunk
   * that left the stream at `after`: a failing or last chunk is the whole
   * step, any other chunk is followed by ReadLoop over the room that is left.
   */
  ghost predicate ChunkStep(chunk: Result<Chunk, StreamError>, before: int, after: int, length: int, room: nat,
                            readFile: (int, nat) -> ReadReply) {
    var request := ReadRequest(before, Min(room, MaxReadSize));
    var run := ReadLoop(before, length, room, readFile);
    && (chunk.Failure? ==> run == ReadRun(Failure(chunk.error), after, [], [request]))
    && (chunk.Success? && chunk.value.last ==>
          run == ReadRun(Success(|chunk.value.data|), after, chunk.value.data, [request]))
    && (chunk.Success? && !chunk.value.last ==>
          && 0 < |chunk.value.data| <= room && after == before + |chunk.value.data|
          && run == ReadAfter(|chunk.value.data|, chunk.value.data, [request],
                              ReadLoop(after, length, room - |chunk.value.data|, readFile)))
  }

  /** ReadAfter twice is ReadAfter once, over both prefixes. */
  lemma ReadAfterAfter(copied: nat, delivered: seq<byte>, sent: seq<ReadRequest>,
                       copied2: nat, delivered2: seq<byte>, sent2: seq<ReadRequest>, rest: ReadRun)
    ensures ReadAfter(copied, delivered, sent, ReadAfter(copied2, delivered2, sent2, rest))
         == ReadAfter(copied + copied2, delivered + delivered2, sent + sent2, rest)
  {
    assert delivered + (delivered2 + rest.delivered) == delivered + delivered2 + rest.delivered;
    assert sent + (sent2 + rest.requests) == sent + sent2 + rest.requests;
  }

  /** Folding one more chunk into a run that follows earlier chunks. */
  lemma ReadAfterStep(whole: ReadRun, copied: nat, delivered: seq<byte>, sent: seq<ReadRequest>, tail: ReadRun,
                      copied2: nat, delivered2: seq<byte>, sent2: seq<ReadRequest>, rest: ReadRun)
    requires whole == ReadAfter(copied, delivered, sent, tail)
    requires tail == ReadAfter(copied2, delivered2, sent2, rest)
    ensures whole == ReadAfter(copied + copied2, delivered + delivered2, sent + sent2, rest)
  {
    ReadAfterAfter(copied, delivered, sent, copied2, delivered2, sent2, rest);
  }

  /** `data` written over `s` from index `at` on. */
  function Overlay(s: seq<byte>, at: nat, data: seq<byte>): (r: seq<byte>)
    requires at + |data| <= |s|
    ensures |r| == |s|
  {
    s[..at] + data + s[at + |data|..]
  }

  /** A run that follows `copied` bytes already delivered and `sent` requests already made. */
  function ReadAfter(copied: nat, delivered: seq<byte>, sent: seq<ReadRequest>, rest: ReadRun): ReadRun {
    ReadRun(if rest.result.Success? then Success(copied + rest.result.value) else rest.result,
            rest.position, delivered + rest.delivered, sent + rest.requests)
  }

  /**
   * What Read promises: it copies at most `remaining` bytes and on success
   * returns their number, with the position moved by exactly that much; it
   * sends nothing when there is no room or the position is at or past the
   * length; and every request asks for min(room left, 65536) bytes at a
   * position below the length reached so far.
   */
  lemma {:induction false} ReadLoopProperties(position: int, length: int, remaining: nat,
                                               readFile: (int, nat) -> ReadReply)
    ensures var run := ReadLoop(position, length, remaining, readFile);
      && |run.delivered| <= remaining
      && (run.result.Success? ==> run.result.value == |run.delivered| && run.position == position + |run.delivered|)
      && (remaining == 0 || position >= length ==> run.result == Success(0) && run.requests == [])
      && (forall q | q in run.requests ::
            && position <= q.offset < position + remaining
            && q.offset < length
            && q.maxCount == Min(remaining - (q.offset - position), MaxReadSize))
    decreases remaining
  {
    if remaining == 0 || position >= length {
    } else {
      var request := ReadRequest(position, Min(remaining, MaxReadSize));
      var reply := readFile(request.offset, request.maxCount);
      if ReadStop(position, remaining, request, reply).None? {
        var data := DataOf(reply);
        ReadLoopProperties(position + |data|, length, remaining - |data|, readFile);
      }
    }
  }

  /**
   * Every request but the last was answered STATUS_SUCCESS with some data,
   * and the next request asks right after that data.
   */
  ghost predicate ReadsChained(requests: seq<ReadRequest>, readFile: (int, nat) -> ReadReply) {
    |requests| <= 1 ||
      var reply := readFile(requests[0].offset, requests[0].maxCount);
      && reply.status == STATUS_SUCCESS && 0 < |DataOf(reply)|
      && requests[1].offset == requests[0].offset + |DataOf(reply)|
      && ReadsChained(requests[1..], readFile)
  }

  /**
   * The requests Read sends follow each other: the first is at the starting
   * position, and each one after it asks right after the data the previous
   * one got, which came with STATUS_SUCCESS and was not empty.
   */
  lemma {:induction false} ReadLoopRequestChain(position: int, length: int, remaining: nat,
                                                 readFile: (int, nat) -> ReadReply)
    ensures var requests := ReadLoop(position, length, remaining, readFile).requests;
      && (requests != [] ==> requests[0] == ReadRequest(position, Min(remaining, MaxReadSize)))
      && ReadsChained(requests, readFile)
    decreases remaining
  {
    if remaining == 0 || position >= length {
    } else {
      var request := ReadRequest(position, Min(remaining, MaxReadSize));
      var reply := readFile(request.offset, request.maxCount);
      var stop := ReadStop(position, remaining, request, reply);
      var run := ReadLoop(position, length, remaining, readFile);
      assert run == ReadStep(position, length, remaining, readFile);
      if stop.Some? {
        assert run.requests == [request];
      } else {
        var data := DataOf(reply);
        var rest := ReadLoop(position + |data|, length, remaining - |data|, readFile);
        ReadLoopRequestChain(position + |data|, length, remaining - |data|, readFile);
        assert run.requests == [request] + rest.requests;
        assert run.requests[1..] == rest.requests;
      }
    }
  }

  // ---------------------------------------------------------------------
  // The Write loop as a function
  // ---------------------------------------------------------------------

  /** What a Write does: the result, the final position and length, and the requests sent. */
  datatype WriteRun = WriteRun(result: Result<(), StreamError>, position: int, length: int,
                               requests: seq<WriteRequest>)

  /** The `for (var i = 0; i < count;)` loop of Write, over the bytes still to send. */
  function WriteLoop(position: int, length: int, data: seq<byte>, writeFile: (int, seq<byte>) -> WriteReply): WriteRun
    decreases |data|, 1
  {
    if |data| == 0 then WriteRun(Success(()), position, length, [])
    else WriteStep(position, length, data, writeFile)
  }

  /** One pass of the loop's body over the next min(65536, n) bytes, then the rest of the loop. */
  function WriteStep(position: int, length: int, data: seq<byte>, writeFile: (int, seq<byte>) -> WriteReply): WriteRun
    requires 0 < |data|
    decreases |data|, 0
  {
    var size := Min(MaxWriteSize, |data|);
    var request := WriteRequest(position, data[..size]);
    var reply := writeFile(request.offset, request.data);
    if reply.status != STATUS_SUCCESS then WriteRun(Failure(Rejected(reply.status)), position, length, [request])
    else
      var newPosition := position + reply.bytesWritten;
      var newLength := Max(length, newPosition);
      if reply.bytesWritten != size then
        WriteRun(Failure(ShortWrite(size, reply.bytesWritten)), newPosition, newLength, [request])
      else
        WriteAfter([request], WriteLoop(newPosition, newLength, data[size..], writeFile))
  }

  /**
   * A chunk of `data` has been written from `before` (length `lengthBefore`),
   * leaving the stream at `after` (length `lengthAfter`): a failure is the
   * whole run, a success its first step.
   */
  ghost predicate ChunkWritten(r: Result<(), StreamError>, before: int, lengthBefore: int, after: int, lengthAfter: int,
                               data: seq<byte>, writeFile: (int, seq<byte>) -> WriteReply)
    requires 0 < |data|
  {
    var size := Min(MaxWriteSize, |data|);
    var request := WriteRequest(before, data[..size]);
    var run := WriteStep(before, lengthBefore, data, writeFile);
    && (r.Failure? ==> run == WriteRun(Failure(r.error), after, lengthAfter, [request]))
    && (r.Success? ==> run == WriteAfter([request], WriteLoop(after, lengthAfter, data[size..], writeFile)))
  }

  /** Folding one more step into a run that follows earlier requests. */
  lemma WriteAfterStep(whole: WriteRun, sent: seq<WriteRequest>, tail: WriteRun, sent2: seq<WriteRequest>, rest: WriteRun)
    requires whole == WriteAfter(sent, tail)
    requires tail == WriteAfter(sent2, rest)
    ensures whole == WriteAfter(sent + sent2, rest)
  {
    assert sent + (sent2 + rest.requests) == sent + sent2 + rest.requests;
  }

  /** A run that follows the requests already sent. */
  function WriteAfter(sent: seq<WriteRequest>, rest: WriteRun): WriteRun {
    rest.(requests := sent + rest.requests)
  }

  /** `whole` is the run that sent `sent` first and then runs WriteLoop over `data`. */
  ghost predicate WriteSoFar(whole: WriteRun, sent: seq<WriteRequest>, position: int, length: int, data: seq<byte>,
                             writeFile: (int, seq<byte>) -> WriteReply) {
    whole == WriteAfter(sent, WriteLoop(position, length, data, writeFile))
  }

  /** The data of the requests, in order. */
  function Sent(requests: seq<WriteRequest>): seq<byte> {
    if |requests| == 0 then [] else requests[0].data + Sent(requests[1..])
  }

  /** Chunk i + 1 of `data` is chunk i of what is left after the first chunk. */
  lemma NextChunk(data: seq<byte>, i: nat)
    requires MaxWriteSize < |data| && 0 < i
    ensures (i - 1) * MaxWriteSize == i * MaxWriteSize - MaxWriteSize
    ensures var rest := data[MaxWriteSize..];
      (i - 1) * MaxWriteSize < |rest| ==>
        rest[(i - 1) * MaxWriteSize .. Min(|rest|, i * MaxWriteSize)]
        == data[i * MaxWriteSize .. Min(|data|, (i + 1) * MaxWriteSize)]
  {
    var rest := data[MaxWriteSize..];
    assert (i - 1) * MaxWriteSize == i * MaxWriteSize - MaxWriteSize;
    assert (i + 1) * MaxWriteSize == i * MaxWriteSize + MaxWriteSize;
    if (i - 1) * MaxWriteSize < |rest| {
      var lo, hi := (i - 1) * MaxWriteSize, Min(|rest|, i * MaxWriteSize);
      assert hi + MaxWriteSize == Min(|data|, (i + 1) * MaxWriteSize);
      forall k | 0 <= k < hi - lo
        ensures rest[lo..hi][k] == data[lo + MaxWriteSize .. hi + MaxWriteSize][k]
      {
        assert rest[lo + k] == data[lo + k + MaxWriteSize];
      }
      assert rest[lo..hi] == data[lo + MaxWriteSize .. hi + MaxWriteSize];
    }
  }

  /**
   * Write's chunking: request i carries bytes [65536·i, min(65536·(i+1), n))
   * of the data, at the starting position plus 65536·i.
   */
  lemma {:induction false} WriteLoopChunks(position: int, length: int, data: seq<byte>,
                                            writeFile: (int, seq<byte>) -> WriteReply)
    ensures var run := WriteLoop(position, length, data, writeFile);
      forall i | 0 <= i < |run.requests| ::
        && i * MaxWriteSize < |data|
        && run.requests[i].offset == position + i * MaxWriteSize
        && run.requests[i].data == data[i * MaxWriteSize .. Min(|data|, (i + 1) * MaxWriteSize)]
    decreases |data|
  {
    var run := WriteLoop(position, length, data, writeFile);
    if |data| > 0 {
      var size := Min(MaxWriteSize, |data|);
      var reply := writeFile(position, data[..size]);
      if reply.status == STATUS_SUCCESS && reply.bytesWritten == size {
        var newPosition := position + size;
        var rest := WriteLoop(newPosition, Max(length, newPosition), data[size..], writeFile);
        WriteLoopChunks(newPosition, Max(length, newPosition), data[size..], writeFile);
        assert run.requests == [WriteRequest(position, data[..size])] + rest.requests;
        forall i | 0 < i < |run.requests|
          ensures i * MaxWriteSize < |data|
          ensures run.requests[i].offset == position + i * MaxWriteSize
          ensures run.requests[i].data == data[i * MaxWriteSize .. Min(|data|, (i + 1) * MaxWriteSize)]
        {
          assert run.requests[i] == rest.requests[i - 1];
          NextChunk(data, i);
        }
      }
    }
  }

  /**
   * What Write promises: the requests carry a prefix of the data in order;
   * on success they carry all of it, the position has moved by its length
   * and, unless there was nothing to write, the length has become
   * max(length, new position).
   */
  lemma {:induction false} WriteLoopProperties(position: int, length: int, data: seq<byte>,
                                                writeFile: (int, seq<byte>) -> WriteReply)
    ensures var run := WriteLoop(position, length, data, writeFile);
      && Sent(run.requests) <= data
      && (run.result.Success? ==>
            && Sent(run.requests) == data
            && run.position == position + |data|
            && run.length == if |data| == 0 then length else Max(length, position + |data|))
    decreases |data|
  {
    var run := WriteLoop(position, length, data, writeFile);
    if |data| > 0 {
      var size := Min(MaxWriteSize, |data|);
      var reply := writeFile(position, data[..size]);
      if reply.status != STATUS_SUCCESS || reply.bytesWritten != size {
        assert Sent(run.requests) == data[..size] + Sent([]);
      } else {
        var newPosition := position + size;
        var rest := WriteLoop(newPosition, Max(length, newPosition), data[size..], writeFile);
        WriteLoopProperties(newPosition, Max(length, newPosition), data[size..], writeFile);
        assert run.requests == [WriteRequest(position, data[..size])] + rest.requests;
        assert Sent(run.requests) == data[..size] + Sent(rest.requests);
        assert data == data[..size] + data[size..];
      }
    }
  }

  // ---------------------------------------------------------------------
  // What the handle's mask allows
  // ---------------------------------------------------------------------

  /** A mask lets its holder read: GENERIC_READ, or GENERIC_ALL, which grants every access. */
  predicate GrantsRead(mask: AccessMask) {
    GENERIC_READ in mask || GENERIC_ALL in mask
  }

  /** A mask lets its holder write: GENERIC_WRITE, or GENERIC_ALL. */
  predicate GrantsWrite(mask: AccessMask) {
    GENERIC_WRITE in mask || GENERIC_ALL in mask
  }

  /**
   * CanRead and CanWrite test the GENERIC_READ and GENERIC_WRITE bits alone,
   * so a stream opened for Read|Delete (or Write|Delete) gets GENERIC_ALL and
   * reports that it can neither read nor write, although the server granted both.
   */
  lemma CanReadMissesGenericAll(stream: SmbFileStream)
    requires stream.access == SmbAccessToAccessMask({SmbRead, SmbDelete})
    ensures !stream.CanRead() && !stream.CanWrite()
    ensures GrantsRead(stream.access) && GrantsWrite(stream.access)
  {
    assert {SmbRead, SmbDelete} !in {{SmbWrite}, {SmbRead}, {SmbDelete}, SmbReadWrite};
  }

  /** Every access that asks for Read (Write) yields a mask that grants reading (writing). */
  lemma RequestedAccessGranted(fileAccess: SmbFileAccess)
    ensures SmbRead in fileAccess ==> GrantsRead(SmbAccessToAccessMask(fileAccess))
    ensures SmbWrite in fileAccess ==> GrantsWrite(SmbAccessToAccessMask(fileAccess))
  {
  }

  // ---------------------------------------------------------------------
  // The stream
  // ---------------------------------------------------------------------

  class SmbFileStream {
    /** The mask the file was opened with (the handle's Access). */
    const access: AccessMask
    var length: int
    var position: int

    /**
     * The constructor: the file is opened with the mask FileAccessToAccessMask
     * gives; `endOfFile` is what RefreshFileInformation reads back. Append
     * starts at the end, every other mode at 0.
     */
    constructor (fileMode: FileMode, fileAccess: SmbFileAccess, endOfFile: int)
      ensures access == SmbAccessToAccessMask(fileAccess)
      ensures length == endOfFile
      ensures position == if fileMode == Append then endOfFile else 0
    {
      access := SmbAccessToAccessMask(fileAccess);
      length := endOfFile;
      position := if fileMode == Append then endOfFile else 0;
    }

    /** CanRead, as written: the handle's mask holds the GENERIC_READ bit. */
    predicate CanRead()
    {
      GENERIC_READ in access
    }

    /** CanWrite, as written: the handle's mask holds the GENERIC_WRITE bit. */
    predicate CanWrite()
    {
      GENERIC_WRITE in access
    }

    /** The Position setter: only 0 <= value <= Length is accepted; otherwise nothing changes. */
    method SetPosition(value: int) returns (r: Result<(), StreamError>)
      modifies this`position
      ensures r.Success? <==> 0 <= value <= length
      ensures r.Success? ==> position == value
      ensures r.Failure? ==> position == old(position) && r.error == InvalidPosition(value, length)
    {
      if value < 0 || value > length {
        return Failure(InvalidPosition(value, length));
      }
      position := value;
      return Success(());
    }

    /** Seek: the target from Begin, Current or End goes through the setter and is returned. */
    method Seek(offset: int, origin: SeekOrigin) returns (r: Result<int, StreamError>)
      modifies this`position
      ensures var target := SeekTarget(old(position), length, offset, origin);
        && (r.Success? <==> 0 <= target <= length)
        && (r.Success? ==> r.value == target && position == target)
        && (r.Failure? ==> position == old(position))
    {
      var target := position;
      match origin {
        case Begin => target := offset;
        case Current => target := target + offset;
        case End => target := length + offset;
        case UndefinedOrigin(_) =>
      }
      var accepted := SetPosition(target);
      if accepted.Failure? {
        return Failure(accepted.error);
      }
      return Success(target);
    }

    /** SetLength: the length only; the position is not clamped. */
    method SetLength(value: int)
      modifies this`length
      ensures length == value
    {
      length := value;
    }

    /** Copies `data` into `buffer` at `at`, as MemoryStream.Write does. */
    static method CopyInto(buffer: array<byte>, at: nat, data: seq<byte>)
      requires at + |data| <= buffer.Length
      modifies buffer
      ensures buffer[..] == Overlay(old(buffer[..]), at, data)
    {
      for j := 0 to |data|
        invariant forall k | 0 <= k < buffer.Length ::
          buffer[k] == if at <= k < at + j then data[k - at] else old(buffer[k])
      {
        buffer[at + j] := data[j];
      }
      assert forall k | 0 <= k < buffer.Length :: buffer[..][k] == Overlay(old(buffer[..]), at, data)[k];
    }

    /**
     * One pass of Read's loop body: the ReadFile request at the position for
     * min(room, 65536) bytes and the status check; then the position moves
     * by what arrived. `last` says the loop ends here. In terms of ReadLoop:
     * a failing or last chunk is the whole run, any other is its first step.
     */
    method ReadChunk(room: nat, readFile: (int, nat) -> ReadReply) returns (chunk: Result<Chunk, StreamError>)
      requires 0 < room && position < length
      modifies this`position
      ensures ChunkStep(chunk, old(position), position, length, room, readFile)
    {
      var bytesToRead := Min(room, MaxReadSize);
      var reply := readFile(position, bytesToRead);
      var data := DataOf(reply);
      var check := ValidateStatus(reply.status, ReadFailureMessage, ReadAllowed);
      if check.Failure? {
        return Failure(Rejected(reply.status));
      }
      if |data| > 0 {
        position := position + |data|;
        if |data| > room {
          return Failure(NotExpandable);
        }
      }
      return Success(Chunk(data, reply.status == STATUS_END_OF_FILE || |data| == 0));
    }

    /**
     * Read's loop: chunks are requested from the position while there is room
     * and the position is short of the length; `received` collects what the
     * window's MemoryStream has been given.
     */
    method ReadChunks(count: nat, readFile: (int, nat) -> ReadReply)
      returns (r: Result<nat, StreamError>, received: seq<byte>, ghost requests: seq<ReadRequest>)
      modifies this`position
      ensures ReadRun(r, position, received, requests) == ReadLoop(old(position), length, count, readFile)
    {
      ghost var whole := ReadLoop(position, length, count, readFile);
      var localOffset: nat := 0;
      received := [];
      requests := [];
      while localOffset < count && position < length
        invariant localOffset <= count && |received| == localOffset
        invariant ReadSoFar(whole, localOffset, received, requests, position, length, count - localOffset, readFile)
        decreases count - localOffset
      {
        ghost var request := ReadRequest(position, Min(count - localOffset, MaxReadSize));
        var chunk := ReadChunk(count - localOffset, readFile);
        if chunk.Failure? {
          return Failure(chunk.error), received, requests + [request];
        }
        var data := chunk.value.data;
        if chunk.value.last {
          return Success(localOffset + |data|), received + data, requests + [request];
        }
        ReadAfterStep(whole, localOffset, received, requests, ReadLoop(request.offset, length, count - localOffset, readFile),
                      |data|, data, [request], ReadLoop(position, length, count - localOffset - |data|, readFile));
        localOffset := localOffset + |data|;
        received := received + data;
        requests := requests + [request];
      }
      return Success(localOffset), received, requests;
    }

    /**
     * Read(buffer, offset, count): the window is checked, ReadLoop runs from
     * the current position with `count` bytes of room, and what arrived lands
     * at `offset`.
     */
    method Read(buffer: array<byte>, offset: int, count: int, readFile: (int, nat) -> ReadReply)
      returns (r: Result<nat, StreamError>, ghost requests: seq<ReadRequest>)
      modifies this`position, buffer
      ensures !ValidWindow(buffer.Length, offset, count) ==>
        r == Failure(InvalidBuffer) && position == old(position) && buffer[..] == old(buffer[..]) && requests == []
      ensures ValidWindow(buffer.Length, offset, count) ==>
        var run := ReadLoop(old(position), length, count, readFile);
        && r == run.result && position == run.position && requests == run.requests
        && offset + |run.delivered| <= buffer.Length
        && buffer[..] == Overlay(old(buffer[..]), offset, run.delivered)
    {
      if !ValidWindow(buffer.Length, offset, count) {
        return Failure(InvalidBuffer), [];
      }
      var received;
      r, received, requests := ReadChunks(count, readFile);
      ReadLoopProperties(old(position), length, count, readFile);
      CopyInto(buffer, offset, received);
    }

    /**
     * One pass of Write's loop body over `data`, what is left to write: its
     * first min(65536, n) bytes go to WriteFile at the position, then the
     * status check, the position and length move by what the server wrote,
     * and the short-write check.
     */
    method WriteChunk(data: seq<byte>, writeFile: (int, seq<byte>) -> WriteReply) returns (r: Result<(), StreamError>)
      requires 0 < |data|
      modifies this`position, this`length
      ensures ChunkWritten(r, old(position), old(length), position, length, data, writeFile)
    {
      var writeBuffer := data[..Min(MaxWriteSize, |data|)];
      var reply := writeFile(position, writeBuffer);
      var check := ValidateStatus(reply.status, WriteFailureMessage, WriteAllowed);
      if check.Failure? {
        return Failure(Rejected(reply.status));
      }
      position := position + reply.bytesWritten;
      length := Max(length, position);
      if reply.bytesWritten != |writeBuffer| {
        return Failure(ShortWrite(|writeBuffer|, reply.bytesWritten));
      }
      return Success(());
    }

    /**
     * Write(buffer, offset, count): runs WriteLoop from the current position
     * and length over the window's bytes.
     */
    method Write(buffer: array<byte>, offset: int, count: int, writeFile: (int, seq<byte>) -> WriteReply)
      returns (r: Result<(), StreamError>, ghost requests: seq<WriteRequest>)
      modifies this`position, this`length
      ensures !ValidWindow(buffer.Length, offset, count) ==>
        r == Failure(InvalidBuffer) && position == old(position) && length == old(length) && requests == []
      ensures ValidWindow(buffer.Length, offset, count) ==>
        WriteRun(r, position, length, requests) == WriteLoop(old(position), old(length), buffer[offset..offset + count], writeFile)
    {
      if !ValidWindow(buffer.Length, offset, count) {
        return Failure(InvalidBuffer), [];
      }
      var data := buffer[offset..offset + count];
      ghost var whole := WriteLoop(position, length, data, writeFile);
      requests := [];
      var i := 0;
      while i < count
        invariant 0 <= i <= count
        invariant WriteSoFar(whole, requests, position, length, data[i..], writeFile)
      {
        var writeBufferSize := Min(MaxWriteSize, count - i);
        ghost var request := WriteRequest(position, data[i..][..writeBufferSize]);
        ghost var before, lengthBefore := position, length;
        var written := WriteChunk(data[i..], writeFile);
        requests := requests + [request];
        if written.Failure? {
          return written, requests;
        }
        assert data[i..][writeBufferSize..] == data[i + writeBufferSize..];
        WriteAfterStep(whole, requests[..|requests| - 1], WriteLoop(before, lengthBefore, data[i..], writeFile),
                       [request], WriteLoop(position, length, data[i + writeBufferSize..], writeFile));
        i := i + writeBufferSize;
      }
      return Success(()), requests;
    }
  }
}
