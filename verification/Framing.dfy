/**
 * The INSTREAM framing of a malware scan (`scan` in internal/mediaprocessor/processor.go):
 * the file is sent as length-prefixed chunks that end with a zero length.
 */
module Framing {
  import opened Prelude

  newtype byte = x: int | 0 <= x < 256

  const BUFFER_SIZE := 65536

  /** The bytes of "zINSTREAM" and a final zero. */
  const GREETING: seq<byte> := [122, 73, 78, 83, 84, 82, 69, 65, 77, 0]

  const TERMINATOR: seq<byte> := [0, 0, 0, 0]

  datatype Status = NoError | EndOfFile | Failed

  /** What one call of `Read` delivers; bytes may come together with the end of the file. */
  datatype Chunk = Chunk(bytes: seq<byte>, status: Status)

  predicate Schedule(chunks: seq<Chunk>) {
    && chunks != []
    && (forall i :: 0 <= i < |chunks| ==> |chunks[i].bytes| <= BUFFER_SIZE)
    && (forall i :: 0 <= i < |chunks| ==> (chunks[i].status == NoError <==> i < |chunks| - 1))
  }

  /** The bytes that a list of reads delivers. */
  function Contents(chunks: seq<Chunk>): seq<byte> {
    if chunks == [] then [] else chunks[0].bytes + Contents(chunks[1..])
  }

  function BigEndian(v: nat): (s: seq<byte>)
    requires v < 0x1_0000_0000
    ensures |s| == 4 && Value(s) == v
  {
    assert v / 256 / 256 == v / 65536;
    assert v / 65536 / 256 == v / 16777216;
    [(v / 16777216) as byte, (v / 65536 % 256) as byte, (v / 256 % 256) as byte, (v % 256) as byte]
  }

  function Value(s: seq<byte>): nat
    requires |s| >= 4
  {
    ((s[0] as int * 256 + s[1] as int) * 256 + s[2] as int) * 256 + s[3] as int
  }

  // ----- what the scanner understands -----

  /**
   * The payload up to the first zero length and the bytes after it; `None` when the
   * stream breaks off before that.
   */
  function Decode(stream: seq<byte>): Option<(seq<byte>, seq<byte>)>
    decreases |stream|
  {
    if |stream| < 4 then None
    else
      var size := Value(stream);
      if size == 0 then Some(([], stream[4..]))
      else if |stream| < 4 + size then None
      else
        match Decode(stream[4 + size..])
        case None => None
        case Some((payload, rest)) => Some((stream[4..4 + size] + payload, rest))
  }

  // ----- what the program sends -----

  function Frame(bytes: seq<byte>): seq<byte>
    requires |bytes| <= BUFFER_SIZE
  {
    if bytes == [] then [] else BigEndian(|bytes|) + bytes
  }

  function Frames(chunks: seq<Chunk>): seq<byte>
    requires forall i :: 0 <= i < |chunks| ==> |chunks[i].bytes| <= BUFFER_SIZE
  {
    if chunks == [] then [] else Frame(chunks[0].bytes) + Frames(chunks[1..])
  }

  function Ending(chunks: seq<Chunk>): seq<byte>
    requires Schedule(chunks)
  {
    if chunks[|chunks| - 1].status == EndOfFile then TERMINATOR else []
  }

  /** What is still to be sent when `i` reads have been handled. */
  function Remaining(chunks: seq<Chunk>, i: nat): seq<byte>
    requires Schedule(chunks) && i <= |chunks|
    decreases |chunks| - i
  {
    if i == |chunks| then Ending(chunks) else Frame(chunks[i].bytes) + Remaining(chunks, i + 1)
  }

  /** Everything sent when no write fails. */
  function Stream(chunks: seq<Chunk>): seq<byte>
    requires Schedule(chunks)
  {
    GREETING + Remaining(chunks, 0)
  }

  lemma {:induction false} RemainingFrames(chunks: seq<Chunk>, i: nat)
    requires Schedule(chunks) && i <= |chunks|
    ensures Remaining(chunks, i) == Frames(chunks[i..]) + Ending(chunks)
    decreases |chunks| - i
  {
    if i < |chunks| {
      RemainingFrames(chunks, i + 1);
      assert chunks[i..][1..] == chunks[i + 1..];
      FramesStep(chunks[i..], Ending(chunks));
    }
  }

  lemma DecodeFrame(bytes: seq<byte>, tail: seq<byte>)
    requires 0 < |bytes| <= BUFFER_SIZE
    ensures Decode(Frame(bytes) + tail) ==
            match Decode(tail) {
              case None => None
              case Some((payload, rest)) => Some((bytes + payload, rest))
            }
  {
    var stream := Frame(bytes) + tail;
    assert stream[..4] == BigEndian(|bytes|);
    assert Value(stream) == |bytes|;
    assert stream[4..4 + |bytes|] == bytes;
    assert stream[4 + |bytes|..] == tail;
  }

  lemma DecodeEnd(tail: seq<byte>)
    ensures Decode(TERMINATOR + tail) == Some(([], tail))
  {
    var stream := TERMINATOR + tail;
    assert stream[4..] == tail && Value(stream) == 0;
  }

  lemma FramesStep(chunks: seq<Chunk>, tail: seq<byte>)
    requires chunks != [] && forall i :: 0 <= i < |chunks| ==> |chunks[i].bytes| <= BUFFER_SIZE
    ensures Frames(chunks) + tail == Frame(chunks[0].bytes) + (Frames(chunks[1..]) + tail)
  {
  }

  /** Round trip: however the file is split into reads, the scanner sees exactly its bytes. */
  lemma {:induction false} FramesDecode(chunks: seq<Chunk>, tail: seq<byte>)
    requires forall i :: 0 <= i < |chunks| ==> |chunks[i].bytes| <= BUFFER_SIZE
    ensures Decode(Frames(chunks) + (TERMINATOR + tail)) == Some((Contents(chunks), tail))
  {
    if chunks == [] {
      DecodeEnd(tail);
      assert Frames(chunks) + (TERMINATOR + tail) == TERMINATOR + tail;
    } else {
      FramesDecode(chunks[1..], tail);
      FramesStep(chunks, TERMINATOR + tail);
      var bytes, after := chunks[0].bytes, Frames(chunks[1..]) + (TERMINATOR + tail);
      if bytes == [] {
        assert Frame(bytes) + after == after && bytes + Contents(chunks[1..]) == Contents(chunks[1..]);
      } else {
        DecodeFrame(bytes, after);
      }
    }
  }

  /** No stream that breaks off early, wherever it does, is taken for a complete one. */
  lemma {:induction false} BrokenStream(chunks: seq<Chunk>, n: nat)
    requires forall i :: 0 <= i < |chunks| ==> |chunks[i].bytes| <= BUFFER_SIZE
    requires n < |Frames(chunks) + TERMINATOR|
    ensures Decode((Frames(chunks) + TERMINATOR)[..n]) == None
  {
    var stream := (Frames(chunks) + TERMINATOR)[..n];
    if chunks != [] && n >= 4 {
      var first, after := Frame(chunks[0].bytes), Frames(chunks[1..]) + TERMINATOR;
      FramesStep(chunks, TERMINATOR);
      if n >= |first| {
        BrokenStream(chunks[1..], n - |first|);
        assert stream == first + after[..n - |first|];
        if first != [] {
          DecodeFrame(chunks[0].bytes, after[..n - |first|]);
        } else {
          assert stream == after[..n];
        }
      } else {
        assert stream == first[..n];
        BrokenFrame(chunks[0].bytes, n);
      }
    }
  }

  lemma BrokenFrame(bytes: seq<byte>, n: nat)
    requires |bytes| <= BUFFER_SIZE && 4 <= n < |Frame(bytes)|
    ensures Decode(Frame(bytes)[..n]) == None
  {
    assert Frame(bytes)[..n][..4] == BigEndian(|bytes|);
    assert Value(Frame(bytes)[..n]) == |bytes|;
  }

  // ----- the program -----

  class File {
    const chunks: seq<Chunk>
    var next: nat

    constructor (chunks: seq<Chunk>)
      ensures this.chunks == chunks && next == 0
    {
      this.chunks := chunks;
      next := 0;
    }

    method ReadInto(buffer: array<byte>) returns (count: nat, status: Status)
      requires Schedule(chunks) && next < |chunks| && buffer.Length == BUFFER_SIZE
      modifies this`next, buffer
      ensures next == old(next) + 1
      ensures count == |chunks[old(next)].bytes| && status == chunks[old(next)].status
      ensures buffer[..count] == chunks[old(next)].bytes
    {
      var bytes := chunks[next].bytes;
      count, status := |bytes|, chunks[next].status;
      for i := 0 to count
        invariant next == old(next)
        invariant forall k :: 0 <= k < i ==> buffer[k] == bytes[k]
      {
        buffer[i] := bytes[i];
      }
      next := next + 1;
    }
  }

  function Clip(s: seq<byte>, n: nat): seq<byte> {
    if n < |s| then s[..n] else s
  }

  /** A connection that breaks after `capacity` bytes, possibly in the middle of a write. */
  class Connection {
    const capacity: nat
    var sent: seq<byte>

    constructor (capacity: nat)
      ensures this.capacity == capacity && sent == []
    {
      this.capacity := capacity;
      sent := [];
    }

    method Write(bytes: seq<byte>) returns (ok: bool)
      requires |sent| <= capacity
      modifies this`sent
      ensures sent == Clip(old(sent) + bytes, capacity)
      ensures ok == (|old(sent)| + |bytes| <= capacity)
    {
      var room := capacity - |sent|;
      ok := |bytes| <= room;
      sent := sent + if ok then bytes else bytes[..room];
    }
  }

  method PutUint32(size: array<byte>, v: nat)
    requires size.Length == 4 && v < 0x1_0000_0000
    modifies size
    ensures size[..] == BigEndian(v)
  {
    size[0] := (v / 16777216) as byte;
    size[1] := (v / 65536 % 256) as byte;
    size[2] := (v / 256 % 256) as byte;
    size[3] := (v % 256) as byte;
  }

  datatype Outcome = Streamed | WriteFailed | ReadFailed

  /** Clipping in the middle of a stream does not depend on what would have followed. */
  lemma ClipPrefix(sent: seq<byte>, later: seq<byte>, n: nat)
    requires n < |sent|
    ensures Clip(sent + later, n) == Clip(sent, n)
  {
  }

  lemma Regroup(a: seq<byte>, b: seq<byte>, c: seq<byte>)
    ensures a + (b + c) == a + b + c
  {
  }

  lemma ClipWithin(whole: seq<byte>, later: seq<byte>, n: nat)
    ensures if |whole| <= n then Clip(whole, n) == whole
            else Clip(whole, n) == Clip(whole + later, n) && n < |whole + later|
  {
    if |whole| > n {
      ClipPrefix(whole, later, n);
    }
  }

  /** What has been sent after `i` reads is the stream without what remains. */
  ghost predicate SentSoFar(chunks: seq<Chunk>, i: int, sent: seq<byte>, stream: seq<byte>)
    requires Schedule(chunks)
  {
    0 <= i <= |chunks| && sent + Remaining(chunks, i) == stream
  }

  /** After a chunk the rest is still to come, or the stream is clipped within the chunk. */
  lemma ChunkSent(chunks: seq<Chunk>, i: int, before: seq<byte>, stream: seq<byte>, capacity: nat)
    requires Schedule(chunks) && SentSoFar(chunks, i, before, stream) && i < |chunks|
    ensures var whole := before + Frame(chunks[i].bytes);
            if |whole| <= capacity then SentSoFar(chunks, i + 1, Clip(whole, capacity), stream)
            else Clip(whole, capacity) == Clip(stream, capacity) && capacity < |stream|
  {
    Regroup(before, Frame(chunks[i].bytes), Remaining(chunks, i + 1));
    ClipWithin(before + Frame(chunks[i].bytes), Remaining(chunks, i + 1), capacity);
  }

  /** The two writes of one chunk; an empty read sends nothing. */
  method SendChunk(connection: Connection, buffer: array<byte>, size: array<byte>, count: nat) returns (ok: bool)
    requires size.Length == 4 && count <= buffer.Length == BUFFER_SIZE && size != buffer
    requires |connection.sent| <= connection.capacity
    modifies connection, size
    ensures connection.sent == Clip(old(connection.sent) + Frame(buffer[..count]), connection.capacity)
    ensures ok == (|old(connection.sent) + Frame(buffer[..count])| <= connection.capacity)
  {
    ok := true;
    if count > 0 {
      PutUint32(size, count);
      ghost var before, head, chunk := connection.sent, size[..], buffer[..count];
      assert before + Frame(chunk) == before + head + chunk;
      ok := connection.Write(size[..]);
      if !ok {
        ClipPrefix(before + head, chunk, connection.capacity);
        return false;
      }
      ok := connection.Write(buffer[..count]);
    }
  }

  /** One round of the loop: a read, and what it delivered sent on. */
  method CopyChunk(
    file: File, connection: Connection, buffer: array<byte>, size: array<byte>, ghost stream: seq<byte>)
    returns (ok: bool, status: Status)
    requires Schedule(file.chunks) && file.next < |file.chunks| && |connection.sent| <= connection.capacity
    requires SentSoFar(file.chunks, file.next, connection.sent, stream)
    requires size.Length == 4 && buffer.Length == BUFFER_SIZE && size != buffer
    modifies file, connection, buffer, size
    ensures file.next == old(file.next) + 1 && status == file.chunks[old(file.next)].status
    ensures if ok
            then |connection.sent| <= connection.capacity
                 && SentSoFar(file.chunks, file.next, connection.sent, stream)
            else connection.sent == Clip(stream, connection.capacity) && connection.capacity < |stream|
  {
    ghost var before, i := connection.sent, file.next;
    var count;
    count, status := file.ReadInto(buffer);
    ok := SendChunk(connection, buffer, size, count);
    ChunkSent(file.chunks, i, before, stream, connection.capacity);
  }

  lemma NothingSent(chunks: seq<Chunk>)
    requires Schedule(chunks)
    ensures SentSoFar(chunks, 0, GREETING, Stream(chunks))
  {
  }

  lemma AllSent(chunks: seq<Chunk>, n: nat, sent: seq<byte>, stream: seq<byte>)
    requires Schedule(chunks) && 0 < n <= |chunks| && SentSoFar(chunks, n, sent, stream)
    requires chunks[n - 1].status != NoError
    ensures n == |chunks| && sent + Ending(chunks) == stream
  {
  }

  /** The loop: reads are sent on until the file ends, a read fails or a write does. */
  method CopyAll(file: File, connection: Connection) returns (ok: bool, status: Status)
    requires Schedule(file.chunks) && file.next == 0 && connection.sent == GREETING
    requires |GREETING| <= connection.capacity
    modifies file, connection
    ensures status == file.chunks[|file.chunks| - 1].status || !ok
    ensures var whole := Stream(file.chunks);
            if ok then |connection.sent| <= connection.capacity && connection.sent + Ending(file.chunks) == whole
            else connection.sent == Clip(whole, connection.capacity) && connection.capacity < |whole|
  {
    ghost var stream := Stream(file.chunks);
    var buffer := new byte[BUFFER_SIZE](_ => 0);
    var size := new byte[4](_ => 0);
    NothingSent(file.chunks);
    status := NoError;
    while status == NoError
      invariant |connection.sent| <= connection.capacity && file.next <= |file.chunks|
      invariant SentSoFar(file.chunks, file.next, connection.sent, stream)
      invariant file.next == 0 ==> status == NoError
      invariant file.next > 0 ==> status == file.chunks[file.next - 1].status
      decreases |file.chunks| - file.next
    {
      ok, status := CopyChunk(file, connection, buffer, size, stream);
      if !ok {
        return;
      }
    }
    AllSent(file.chunks, file.next, connection.sent, stream);
    ok := true;
  }

  /** What was sent is the stream up to the point where a write failed, and the outcome says how far it got. */
  method Scan(file: File, connection: Connection) returns (outcome: Outcome)
    requires Schedule(file.chunks) && file.next == 0 && connection.sent == []
    modifies file, connection
    ensures connection.sent == Clip(Stream(file.chunks), connection.capacity)
    ensures outcome ==
            if connection.capacity < |Stream(file.chunks)| then WriteFailed
            else if file.chunks[|file.chunks| - 1].status == EndOfFile then Streamed
            else ReadFailed
  {
    ghost var chunks := file.chunks;
    assert [] + GREETING == GREETING;
    var ok := connection.Write(GREETING);
    if !ok {
      ClipPrefix(GREETING, Remaining(chunks, 0), connection.capacity);
      return WriteFailed;
    }
    var status;
    ok, status := CopyAll(file, connection);
    if !ok {
      return WriteFailed;
    }
    if status == Failed {
      assert connection.sent + [] == connection.sent;
      return ReadFailed;
    }
    ok := connection.Write(TERMINATOR);
    outcome := if ok then Streamed else WriteFailed;
  }

  /** The stream opens with "zINSTREAM" and a zero, by which the scanner knows the format. */
  lemma OpensWithCommand(chunks: seq<Chunk>)
    requires Schedule(chunks)
    ensures |Stream(chunks)| >= 10 && Stream(chunks)[..10] == [122, 73, 78, 83, 84, 82, 69, 65, 77, 0]
  {
  }

  /**
   * What the scanner makes of it: it sees a complete stream exactly when the program goes
   * on to read its answer (`Streamed`), and then it has seen the whole file and no more.
   */
  lemma StreamVerdict(chunks: seq<Chunk>, n: nat)
    requires Schedule(chunks)
    ensures var sent := Clip(Stream(chunks), n);
            |GREETING| <= |sent| ==>
              Decode(sent[|GREETING|..]) ==
              if n < |Stream(chunks)| || chunks[|chunks| - 1].status != EndOfFile then None
              else Some((Contents(chunks), []))
  {
    var sent, body := Clip(Stream(chunks), n), Frames(chunks) + TERMINATOR;
    RemainingFrames(chunks, 0);
    assert chunks[0..] == chunks;
    if |GREETING| <= |sent| {
      var seen := sent[|GREETING|..];
      assert seen == body[..|seen|];
      if |seen| < |body| {
        BrokenStream(chunks, |seen|);
      } else {
        assert seen == Frames(chunks) + (TERMINATOR + []);
        FramesDecode(chunks, []);
      }
    }
  }
}
