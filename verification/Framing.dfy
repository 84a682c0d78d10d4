/**
 The frame layer: one type byte, a 32-bit big-endian length, the payload.

 `ParseFrame` is the meaning of a byte buffer. The agent's incremental `FrameCodec` and the
 SDK's blocking `FrameReader` are both proved against it, each in the imperative form its
 source has.
*/
module Framing {
  import opened Wrappers

  type Byte = b: int | 0 <= b < 0x100

  datatype FrameType = Json | Binary

  datatype Frame = Frame(kind: FrameType, payload: seq<Byte>)

  const HEADER_SIZE := 5
  const MAX_PAYLOAD_SIZE := 64 * 1024 * 1024

  function TypeByte(kind: FrameType): Byte {
    if kind.Json? then 0x01 else 0x02
  }

  function BigEndian(n: nat): seq<Byte> {
    [n / 0x1000000 % 0x100, n / 0x10000 % 0x100, n / 0x100 % 0x100, n % 0x100]
  }

  function FromBigEndian(b: seq<Byte>): nat
    requires |b| == 4
  {
    b[0] as int * 0x1000000 + b[1] as int * 0x10000 + b[2] as int * 0x100 + b[3]
  }

  /** The bytes of one frame. A length of 2^32 or more has no encoding: the agent traps there. */
  function Encode(f: Frame): seq<Byte> {
    [TypeByte(f.kind)] + BigEndian(|f.payload|) + f.payload
  }

  function EncodeAll(frames: seq<Frame>): seq<Byte> {
    if frames == [] then [] else Encode(frames[0]) + EncodeAll(frames[1..])
  }

  predicate Sendable(f: Frame) {
    |f.payload| <= MAX_PAYLOAD_SIZE
  }

  // ---- The meaning of a buffer -------------------------------------------------------------

  datatype FrameError = UnknownType(value: Byte) | Oversized(length: nat)

  datatype Parse = Incomplete | Malformed(error: FrameError) | Parsed(frame: Frame, rest: seq<Byte>)

  /** What the front of a buffer holds. The type is judged before the length, and both before the payload. */
  function ParseFrame(b: seq<Byte>): Parse {
    if |b| < HEADER_SIZE then Incomplete
    else if b[0] != 0x01 && b[0] != 0x02 then Malformed(UnknownType(b[0]))
    else
      var length := FromBigEndian(b[1..5]);
      if length > MAX_PAYLOAD_SIZE then Malformed(Oversized(length))
      else if |b| < HEADER_SIZE + length then Incomplete
      else Parsed(Frame(if b[0] == 0x01 then Json else Binary, b[5..5 + length]), b[5 + length..])
  }

  lemma BigEndianRoundTrip(n: nat)
    requires n < 0x1_0000_0000
    ensures FromBigEndian(BigEndian(n)) == n
  {
    var q1, q2, q3 := n / 0x100, n / 0x10000, n / 0x1000000;
    assert q2 == q1 / 0x100 && q3 == q2 / 0x100 && q3 % 0x100 == q3;
  }

  lemma BigEndianSurjective(b: seq<Byte>)
    requires |b| == 4
    ensures BigEndian(FromBigEndian(b)) == b
    ensures FromBigEndian(b) < 0x1_0000_0000
  {
    var n := FromBigEndian(b);
    assert n / 0x100 == b[0] as int * 0x10000 + b[1] as int * 0x100 + b[2];
    assert n / 0x10000 == b[0] as int * 0x100 + b[1];
    assert n / 0x1000000 == b[0];
  }

  /** Decoding undoes encoding, and takes not one byte of what follows. */
  lemma ParseEncoded(f: Frame, rest: seq<Byte>)
    requires Sendable(f)
    ensures ParseFrame(Encode(f) + rest) == Parsed(f, rest)
  {
    var b := Encode(f) + rest;
    assert b[1..5] == BigEndian(|f.payload|);
    BigEndianRoundTrip(|f.payload|);
    assert b[5..5 + |f.payload|] == f.payload;
    assert b[5 + |f.payload|..] == rest;
  }

  /** Encoding undoes decoding: a buffer that parses is exactly the frame's encoding, then the rest. */
  lemma ParsedIsEncoded(b: seq<Byte>)
    requires ParseFrame(b).Parsed?
    ensures var p := ParseFrame(b);
      && Sendable(p.frame)
      && b == Encode(p.frame) + p.rest
      && |p.rest| + HEADER_SIZE <= |b|
  {
    BigEndianSurjective(b[1..5]);
    var p := ParseFrame(b);
    assert b == [b[0]] + b[1..5] + b[5..5 + |p.frame.payload|] + p.rest;
  }

  /** More bytes never change a verdict already reached. */
  lemma ParseStable(b: seq<Byte>, more: seq<Byte>)
    ensures match ParseFrame(b)
      case Incomplete => true
      case Malformed(e) => ParseFrame(b + more) == Malformed(e)
      case Parsed(f, rest) => ParseFrame(b + more) == Parsed(f, rest + more)
  {
    if |b| >= HEADER_SIZE {
      assert (b + more)[1..5] == b[1..5];
      var length := FromBigEndian(b[1..5]);
      if |b| >= HEADER_SIZE + length {
        assert (b + more)[5..5 + length] == b[5..5 + length];
        assert (b + more)[5 + length..] == b[5 + length..] + more;
      }
    }
  }

  function Zeros(n: nat): seq<Byte> {
    seq(n, i => 0)
  }

  /** The frame that a buffer with a good header is waiting for, if zeros came. */
  lemma WaitingFor(b: seq<Byte>) returns (f: Frame)
    requires ParseFrame(b).Incomplete? && |b| >= HEADER_SIZE
    ensures Sendable(f) && b < Encode(f)
  {
    var length := FromBigEndian(b[1..5]);
    BigEndianSurjective(b[1..5]);
    f := Frame(if b[0] == 0x01 then Json else Binary, b[5..] + Zeros(HEADER_SIZE + length - |b|));
    assert b == [b[0]] + b[1..5] + b[5..];
    assert Encode(f) == b + Zeros(HEADER_SIZE + length - |b|);
  }

  /**
   The three verdicts, by what can be sent: a buffer holds a frame if it begins with the encoding of
   one; it is incomplete if its header is, or if it is the beginning of an encoding; and it is malformed
   if no frame within the limit begins like it.
  */
  lemma VerdictsOnABuffer(b: seq<Byte>)
    ensures ParseFrame(b).Parsed? <==> exists f :: Sendable(f) && Encode(f) <= b
    ensures ParseFrame(b).Incomplete? <==> |b| < HEADER_SIZE || exists f :: Sendable(f) && b < Encode(f)
    ensures ParseFrame(b).Malformed? <==>
      |b| >= HEADER_SIZE && forall f :: Sendable(f) ==> !(Encode(f) <= b) && !(b < Encode(f))
  {
    if ParseFrame(b).Parsed? { ParsedIsEncoded(b); }
    if ParseFrame(b).Incomplete? && |b| >= HEADER_SIZE { var f := WaitingFor(b); }
    forall f | Sendable(f)
      ensures Encode(f) <= b ==> ParseFrame(b).Parsed?
      ensures b < Encode(f) ==> ParseFrame(b).Incomplete?
    {
      if Encode(f) <= b {
        ParseEncoded(f, b[|Encode(f)|..]);
        assert b == Encode(f) + b[|Encode(f)|..];
      } else if b < Encode(f) {
        var more := Encode(f)[|b|..];
        assert b + more == Encode(f) + [] && |more| > 0;
        ParseEncoded(f, []);
        ParseStable(b, more);
      }
    }
  }

  /** Two frames, byte for byte: the types are 1 and 2, and lengths are big-endian. */
  lemma KnownFrames(f: Frame)
    requires |f.payload| == 0x010203
    ensures Encode(Frame(Json, [0x7B, 0x7D])) == [1, 0, 0, 0, 2, 0x7B, 0x7D]
    ensures Encode(f) == [if f.kind.Json? then 1 else 2] + [0, 1, 2, 3] + f.payload
    ensures Sendable(f) && forall g: Frame :: Sendable(g) <==> |g.payload| <= 0x400_0000
  {
    assert 0x010203 / 0x10000 == 1 && 0x010203 / 0x100 % 0x100 == 2;
  }

  /**
   A reader that lost its place is not caught by the header check: the inside of a binary frame
   may itself be a frame, one that nobody sent. This is why a socket is closed after a failed read.
  */
  lemma LostPlaceGoesUnnoticed(f: Frame)
    requires |Encode(f)| <= MAX_PAYLOAD_SIZE
    ensures ParseFrame(Encode(Frame(Binary, Encode(f)))[HEADER_SIZE..]) == Parsed(f, [])
  {
    assert Encode(Frame(Binary, Encode(f)))[HEADER_SIZE..] == Encode(f) + [];
    ParseEncoded(f, []);
  }

  // ---- Draining a buffer, and chunked delivery ----------------------------------------------

  datatype Drained = Drained(frames: seq<Frame>, rest: seq<Byte>, error: Option<FrameError>)

  function Cons(f: Frame, d: Drained): Drained {
    Drained([f] + d.frames, d.rest, d.error)
  }

  function Drain(b: seq<Byte>): Drained
    decreases |b|
  {
    match ParseFrame(b)
    case Incomplete => Drained([], b, None)
    case Malformed(e) => Drained([], b, Some(e))
    case Parsed(f, rest) =>
      ParsedIsEncoded(b);
      Cons(f, Drain(rest))
  }

  lemma DrainParsed(b: seq<Byte>)
    requires ParseFrame(b).Parsed?
    ensures var p := ParseFrame(b);
      |p.rest| < |b| &&
      Drain(b) == Cons(p.frame, Drain(p.rest))
  {
    ParsedIsEncoded(b);
  }

  function Then(d: Drained, next: Drained): Drained {
    Drained(d.frames + next.frames, next.rest, next.error)
  }

  /** The effect of further bytes on a buffer drained to `d`; after an error they are not looked at. */
  function Resume(d: Drained, more: seq<Byte>): Drained {
    if d.error.Some? then Drained(d.frames, d.rest + more, d.error)
    else Then(d, Drain(d.rest + more))
  }

  /** Appending each chunk and draining after it; nothing is read after an error, as the connection closes. */
  function Feed(buffer: seq<Byte>, chunks: seq<seq<Byte>>): Drained
    decreases |chunks|
  {
    var d := Drain(buffer);
    if d.error.Some? || chunks == [] then d
    else Then(d, Feed(d.rest + chunks[0], chunks[1..]))
  }

  function Flatten(chunks: seq<seq<Byte>>): seq<Byte> {
    if chunks == [] then [] else chunks[0] + Flatten(chunks[1..])
  }

  lemma ResumeCons(f: Frame, d: Drained, more: seq<Byte>)
    ensures Resume(Cons(f, d), more) == Cons(f, Resume(d, more))
  {
    var next := Drain(d.rest + more);
    assert [f] + (d.frames + next.frames) == [f] + d.frames + next.frames;
  }

  /** Draining can stop and resume: what arrives later is drained together with the remainder. */
  lemma {:induction false} DrainAppend(b: seq<Byte>, more: seq<Byte>)
    ensures Drain(b + more) == Resume(Drain(b), more)
    decreases |b|
  {
    ParseStable(b, more);
    match ParseFrame(b)
    case Incomplete =>
      assert Drain(b) == Drained([], b, None);
    case Malformed(e) =>
      assert Drain(b) == Drained([], b, Some(e));
    case Parsed(f, rest) =>
      DrainParsed(b);
      DrainParsed(b + more);
      DrainAppend(rest, more);
      ResumeCons(f, Drain(rest), more);
  }

  lemma RestCons(f: Frame, d: Drained)
    ensures EncodeAll(Cons(f, d).frames) + d.rest == Encode(f) + (EncodeAll(d.frames) + d.rest)
  {
    assert Cons(f, d).frames[1..] == d.frames;
  }

  lemma {:induction false} DrainRest(b: seq<Byte>)
    ensures var d := Drain(b);
      && EncodeAll(d.frames) + d.rest == b
      && (d.error.None? ==> ParseFrame(d.rest) == Incomplete && Drain(d.rest) == Drained([], d.rest, None))
      && (d.error.Some? ==> ParseFrame(d.rest) == Malformed(d.error.value))
    decreases |b|
  {
    match ParseFrame(b)
    case Incomplete =>
    case Malformed(_) =>
    case Parsed(f, rest) =>
      ParsedIsEncoded(b);
      DrainParsed(b);
      DrainRest(rest);
      RestCons(f, Drain(rest));
  }

  /** The same frames and the same failure; and while nothing has failed, the same remainder. */
  ghost predicate Agree(d: Drained, e: Drained) {
    d.frames == e.frames && d.error == e.error && (d.error.None? ==> d.rest == e.rest)
  }

  /** Where the network cuts the stream does not matter: any chunking agrees with the whole stream. */
  lemma {:induction false} ChunkingIsInvisible(buffer: seq<Byte>, chunks: seq<seq<Byte>>)
    ensures Agree(Feed(buffer, chunks), Drain(buffer + Flatten(chunks)))
    decreases |chunks|
  {
    var d := Drain(buffer);
    DrainAppend(buffer, Flatten(chunks));
    if chunks == [] {
      assert buffer + Flatten(chunks) == buffer;
    } else if d.error.None? {
      var refilled := d.rest + chunks[0];
      assert refilled + Flatten(chunks[1..]) == d.rest + Flatten(chunks);
      ChunkingIsInvisible(refilled, chunks[1..]);
      assert Feed(buffer, chunks) == Then(d, Feed(refilled, chunks[1..]));
      assert Drain(buffer + Flatten(chunks)) == Then(d, Drain(refilled + Flatten(chunks[1..])));
    }
  }

  lemma {:induction false} DrainEncoded(frames: seq<Frame>, tail: seq<Byte>)
    requires forall f <- frames :: Sendable(f)
    requires ParseFrame(tail) == Incomplete
    ensures Drain(EncodeAll(frames) + tail) == Drained(frames, tail, None)
    decreases |frames|
  {
    if frames == [] {
      assert EncodeAll(frames) + tail == tail;
    } else {
      var others := EncodeAll(frames[1..]) + tail;
      assert EncodeAll(frames) + tail == Encode(frames[0]) + others;
      ParseEncoded(frames[0], others);
      DrainEncoded(frames[1..], tail);
    }
  }

  /**
   Round trip of the whole stream: frames written back to back, cut anywhere, come out as they
   went in, with an empty buffer at the end.
  */
  lemma FramesSurviveChunking(frames: seq<Frame>, chunks: seq<seq<Byte>>)
    requires forall f <- frames :: Sendable(f)
    requires Flatten(chunks) == EncodeAll(frames)
    ensures Feed([], chunks) == Drained(frames, [], None)
  {
    ChunkingIsInvisible([], chunks);
    assert [] + Flatten(chunks) == EncodeAll(frames) + [];
    DrainEncoded(frames, []);
  }

  lemma {:induction false} EncodeAllAppend(a: seq<Frame>, b: seq<Frame>)
    ensures EncodeAll(a + b) == EncodeAll(a) + EncodeAll(b)
    decreases |a|
  {
    if a == [] {
      assert a + b == b;
    } else {
      assert (a + b)[0] == a[0] && (a + b)[1..] == a[1..] + b;
      EncodeAllAppend(a[1..], b);
    }
  }

  lemma {:induction false} FlattenSplit(chunks: seq<seq<Byte>>, k: nat)
    requires k <= |chunks|
    ensures Flatten(chunks) == Flatten(chunks[..k]) + Flatten(chunks[k..])
    decreases k
  {
    if k > 0 {
      assert chunks[1..][..k - 1] == chunks[..k][1..] && chunks[1..][k - 1..] == chunks[k..];
      FlattenSplit(chunks[1..], k - 1);
    }
  }

  /**
   At every moment in between, the buffer is precisely the undecoded remainder of what has been
   received, the frames so far are a prefix of those sent, and no whole frame is left waiting.
  */
  lemma BufferIsTheRemainder(frames: seq<Frame>, chunks: seq<seq<Byte>>, k: nat)
    requires forall f <- frames :: Sendable(f)
    requires Flatten(chunks) == EncodeAll(frames)
    requires k <= |chunks|
    ensures var d := Feed([], chunks[..k]);
      && d.error == None
      && d.frames <= frames
      && EncodeAll(d.frames) + d.rest == Flatten(chunks[..k])
      && ParseFrame(d.rest) == Incomplete
  {
    var received, future := Flatten(chunks[..k]), Flatten(chunks[k..]);
    FlattenSplit(chunks, k);
    ChunkingIsInvisible([], chunks[..k]);
    assert [] + received == received;
    DrainRest(received);
    DrainAppend(received, future);
    FramesSurviveChunking(frames, chunks);
    ChunkingIsInvisible([], chunks);
    assert [] + Flatten(chunks) == received + future;
  }

  // ---- The agent's incremental parser --------------------------------------------------------

  /** Builds a frame the way the agent does, field after field. */
  method EncodeFrame(f: Frame) returns (data: seq<Byte>)
    requires |f.payload| < 0x1_0000_0000
    ensures data == Encode(f)
  {
    data := [];
    data := data + [TypeByte(f.kind)];
    var length := |f.payload|;
    var i, shift := 0, 0x1000000;
    while i < 4
      invariant 0 <= i <= 4
      invariant shift == [0x1000000, 0x10000, 0x100, 1, 0][i]
      invariant data == [TypeByte(f.kind)] + BigEndian(length)[..i]
    {
      data := data + [length / shift % 0x100];
      i, shift := i + 1, shift / 0x100;
    }
    data := data + f.payload;
  }

  class FrameCodec {
    var buffer: seq<Byte>

    constructor ()
      ensures buffer == []
    {
      buffer := [];
    }

    method Append(data: seq<Byte>)
      modifies this
      ensures buffer == old(buffer) + data
    {
      buffer := buffer + data;
    }

    /** The next whole frame, which it cuts from the buffer; nothing is cut when there is none. */
    method NextFrame() returns (r: Result<Option<Frame>, FrameError>)
      modifies this
      ensures match ParseFrame(old(buffer))
        case Incomplete => r == Ok(None) && buffer == old(buffer)
        case Malformed(e) => r == Err(e) && buffer == old(buffer)
        case Parsed(f, rest) => r == Ok(Some(f)) && buffer == rest && |buffer| + HEADER_SIZE <= |old(buffer)|
    {
      if |buffer| < HEADER_SIZE { return Ok(None); }
      var header := buffer[..HEADER_SIZE];
      assert header[1..5] == buffer[1..5];
      if header[0] != 0x01 && header[0] != 0x02 { return Err(UnknownType(header[0])); }
      var length := header[1] as int * 0x1000000 + header[2] as int * 0x10000 + header[3] as int * 0x100 + header[4];
      if length > MAX_PAYLOAD_SIZE { return Err(Oversized(length)); }
      var total := HEADER_SIZE + length;
      if |buffer| < total { return Ok(None); }
      var payload := buffer[HEADER_SIZE..total];
      buffer := buffer[total..];
      return Ok(Some(Frame(if header[0] == 0x01 then Json else Binary, payload)));
    }
  }

  // ---- The SDK's blocking reader --------------------------------------------------------------

  /** How one call of `recv` goes: it returns some bytes, at most `size` of them, or fails. */
  datatype RecvEvent = Delivers(size: nat) | TimesOut | Breaks

  /** How one `sendall` goes; it is all or nothing. */
  datatype WriteResult = WriteDone | WriteTimedOut | WriteBroken

  datatype Received = Chunk(bytes: seq<Byte>) | Eof | Timeout | SocketError

  predicate NoFailures(schedule: seq<RecvEvent>) {
    schedule == [] || (schedule[0].Delivers? && NoFailures(schedule[1..]))
  }

  /** What has been put on the wire, one line of bytes for each socket opened, in order. */
  class Network {
    var lines: seq<seq<Byte>>

    constructor ()
      ensures lines == []
    {
      lines := [];
    }
  }

  /** `lines` with `data` added at the end of the one at `at`. */
  function SaidOn(lines: seq<seq<Byte>>, at: nat, data: seq<Byte>): seq<seq<Byte>>
    requires at < |lines|
  {
    lines[at := lines[at] + data]
  }

  /**
   A connected socket in an arbitrary environment: `stream` is every byte the peer will have
   written when it closes, `schedule` decides how each `recv` goes and `writes` how each
   `sendall` goes. Once a schedule is used up, calls work and take all they can.
  */
  class Socket {
    const network: Network
    const line: nat
    var stream: seq<Byte>
    var schedule: seq<RecvEvent>
    var writes: seq<WriteResult>

    constructor (network: Network, stream: seq<Byte>, schedule: seq<RecvEvent>, writes: seq<WriteResult>)
      modifies network
      ensures this.network == network && line == |old(network.lines)| && network.lines == old(network.lines) + [[]]
      ensures this.stream == stream && this.schedule == schedule && this.writes == writes
    {
      this.network, this.line := network, |network.lines|;
      this.stream, this.schedule, this.writes := stream, schedule, writes;
      new;
      network.lines := network.lines + [[]];
    }

    method Recv(limit: nat) returns (r: Received)
      requires limit > 0
      modifies this`stream, this`schedule
      ensures NoFailures(old(schedule)) ==> NoFailures(schedule) && !r.Timeout? && !r.SocketError?
      ensures r.Chunk? ==> 0 < |r.bytes| <= limit && r.bytes + stream == old(stream)
      ensures !r.Chunk? ==> stream == old(stream)
      ensures r.Eof? ==> stream == []
    {
      var size := limit;
      if schedule != [] {
        var event := schedule[0];
        schedule := schedule[1..];
        match event
        case TimesOut => return Timeout;
        case Breaks => return SocketError;
        case Delivers(n) => size := if n == 0 then 1 else if n < limit then n else limit;
      }
      if stream == [] { return Eof; }
      size := if size < |stream| then size else |stream|;
      r := Chunk(stream[..size]);
      stream := stream[size..];
    }

    method SendAll(data: seq<Byte>) returns (r: WriteResult)
      requires line < |network.lines|
      modifies network, this`writes
      ensures r == if old(writes) == [] then WriteDone else old(writes)[0]
      ensures network.lines == if r.WriteDone? then SaidOn(old(network.lines), line, data) else old(network.lines)
    {
      r := WriteDone;
      if writes != [] { r, writes := writes[0], writes[1..]; }
      if r.WriteDone? { network.lines := SaidOn(network.lines, line, data); }
    }
  }

  datatype ReadError = Protocol(error: FrameError) | TimedOutReading | Broken | ClosedByPeer

  class FrameReader {
    const socket: Socket

    constructor (socket: Socket)
      ensures this.socket == socket
    {
      this.socket := socket;
    }

    /** Exactly `count` bytes, or a connection error; never a byte beyond them. */
    method ReadExactly(count: nat) returns (r: Result<seq<Byte>, ReadError>)
      modifies socket`stream, socket`schedule
      ensures r.Ok? ==> |r.value| == count && r.value + socket.stream == old(socket.stream)
      ensures r.Err? ==> !r.error.Protocol?
      ensures r.Err? ==> exists taken :: |taken| < count && taken + socket.stream == old(socket.stream)
      ensures NoFailures(old(socket.schedule)) ==>
        NoFailures(socket.schedule) && (r.Ok? <==> count <= |old(socket.stream)|)
    {
      var chunks: seq<Byte> := [];
      var remaining := count;
      while remaining > 0
        invariant |chunks| + remaining == count
        invariant chunks + socket.stream == old(socket.stream)
        invariant NoFailures(old(socket.schedule)) ==> NoFailures(socket.schedule)
      {
        var chunk := socket.Recv(if remaining < 0x10000 then remaining else 0x10000);
        match chunk
        case Timeout => return Err(TimedOutReading);
        case SocketError => return Err(Broken);
        case Eof => return Err(ClosedByPeer);
        case Chunk(bytes) =>
          chunks := chunks + bytes;
          remaining := remaining - |bytes|;
      }
      return Ok(chunks);
    }

    /**
     One frame off the stream. What it returns is what the incremental parser would: the same
     frame and the same refusals, whatever sizes `recv` chose; and it never reads past its frame.
    */
    method ReadFrame() returns (r: Result<Frame, ReadError>)
      modifies socket`stream, socket`schedule
      ensures r.Ok? ==> ParseFrame(old(socket.stream)) == Parsed(r.value, socket.stream)
      ensures r.Err? && r.error.Protocol? ==>
        && ParseFrame(old(socket.stream)) == Malformed(r.error.error)
        && socket.stream == old(socket.stream)[HEADER_SIZE..]
      ensures r.Err? ==> exists taken :: taken + socket.stream == old(socket.stream)
      ensures NoFailures(old(socket.schedule)) ==>
        && NoFailures(socket.schedule)
        && (r.Ok? <==> ParseFrame(old(socket.stream)).Parsed?)
        && (r.Err? && r.error.Protocol? <==> ParseFrame(old(socket.stream)).Malformed?)
    {
      ghost var s := socket.stream;
      var head := ReadExactly(HEADER_SIZE);
      if head.Err? { return Err(head.error); }
      var header := head.value;
      assert s[..HEADER_SIZE] == header && s[1..5] == header[1..5] && s[HEADER_SIZE..] == socket.stream;
      if header[0] != 0x01 && header[0] != 0x02 {
        assert header + socket.stream == s;
        return Err(Protocol(UnknownType(header[0])));
      }
      var length := FromBigEndian(header[1..5]);
      if length > MAX_PAYLOAD_SIZE {
        assert header + socket.stream == s;
        return Err(Protocol(Oversized(length)));
      }
      var body := ReadExactly(length);
      if body.Err? {
        ghost var taken :| taken + socket.stream == s[HEADER_SIZE..];
        assert (header + taken) + socket.stream == s;
        return Err(body.error);
      }
      assert s == header + body.value + socket.stream;
      assert s[5..5 + length] == body.value && s[5 + length..] == socket.stream;
      return Ok(Frame(if header[0] == 0x01 then Json else Binary, body.value));
    }

    /**
     What one read after another adds up to: on a connection that does not fail, the frames the
     incremental parser finds in the stream, and its failure; on any, a prefix of them.
    */
    method ReadUntilFailure() returns (frames: seq<Frame>, failure: ReadError)
      modifies socket`stream, socket`schedule
      ensures frames <= Drain(old(socket.stream)).frames
      ensures failure.Protocol? ==>
        frames == Drain(old(socket.stream)).frames && Drain(old(socket.stream)).error == Some(failure.error)
      ensures NoFailures(old(socket.schedule)) ==>
        frames == Drain(old(socket.stream)).frames && (failure.Protocol? <==> Drain(old(socket.stream)).error.Some?)
    {
      frames := [];
      while true
        invariant Drain(old(socket.stream)).frames == frames + Drain(socket.stream).frames
        invariant Drain(old(socket.stream)).error == Drain(socket.stream).error
        invariant NoFailures(old(socket.schedule)) ==> NoFailures(socket.schedule)
        decreases |socket.stream|
      {
        ghost var before := socket.stream;
        var next := ReadFrame();
        if next.Err? { return frames, next.error; }
        DrainParsed(before);
        ParsedIsEncoded(before);
        frames := frames + [next.value];
      }
    }
  }
}
