/** The messages inside frames: handshake, requests, replies, and what each side makes of them. */
module Messages {
  import opened Wrappers
  import opened JsonValues
  import opened Framing

  const PROTOCOL_VERSION := 1
  const AGENT_VERSION := "0.1.0"

  // ---- The session token ---------------------------------------------------------------------

  /** A Swift `Character`: the UTF-8 bytes of one grapheme cluster. */
  type Character = c: seq<bv8> | c != [] witness [0]
  type Token = seq<Character>

  function Utf8(t: Token): seq<bv8> {
    if t == [] then [] else t[0] + Utf8(t[1..])
  }

  /** `zip(...).reduce(0) { $0 | ($1.0 ^ $1.1) }`; `zip` ends with the shorter sequence. */
  function Difference(seen: bv8, a: seq<bv8>, b: seq<bv8>): bv8
    decreases |a|
  {
    if a == [] || b == [] then seen else Difference(seen | (a[0] ^ b[0]), a[1..], b[1..])
  }

  function IsTokenValid(expected: Option<Token>, candidate: Option<Token>): bool {
    match expected
    case None => true
    case Some(e) =>
      && candidate.Some?
      && |candidate.value| == |e|
      && Difference(0, Utf8(e), Utf8(candidate.value)) == 0
  }

  lemma {:induction false} DifferenceIsZero(seen: bv8, a: seq<bv8>, b: seq<bv8>)
    ensures Difference(seen, a, b) == 0 <==> seen == 0 && (a <= b || b <= a)
    decreases |a|
  {
    if a != [] && b != [] {
      DifferenceIsZero(seen | (a[0] ^ b[0]), a[1..], b[1..]);
      assert (seen | (a[0] ^ b[0])) == 0 <==> seen == 0 && a[0] == b[0];
      assert a[0] == b[0] ==> (a <= b <==> a[1..] <= b[1..]) && (b <= a <==> b[1..] <= a[1..]);
    }
  }

  /** As many characters, and one byte string begins the other. */
  predicate Alike(a: Token, b: Token) {
    |a| == |b| && (Utf8(a) <= Utf8(b) || Utf8(b) <= Utf8(a))
  }

  /** What the comparison accepts, exactly. Without a token to compare with it accepts anything, and a missing token only then. */
  lemma TokenTestIsPrefixTest(expected: Option<Token>, candidate: Option<Token>)
    ensures IsTokenValid(expected, candidate) <==>
      expected.Some? ==> candidate.Some? && Alike(candidate.value, expected.value)
  {
    if expected.Some? && candidate.Some? { DifferenceIsZero(0, Utf8(expected.value), Utf8(candidate.value)); }
  }

  ghost predicate OneBytePerCharacter(t: Token) {
    forall c <- t :: |c| == 1
  }

  lemma {:induction false} OneByteTokensAreTheirBytes(t: Token)
    requires OneBytePerCharacter(t)
    ensures |Utf8(t)| == |t|
    ensures forall i :: 0 <= i < |t| ==> t[i] == [Utf8(t)[i]]
    decreases |t|
  {
    if t != [] {
      OneByteTokensAreTheirBytes(t[1..]);
      assert t == [t[0]] + t[1..];
    }
  }

  /** Where both tokens are of one-byte characters, as those the controller generates, the test is equality. */
  lemma TokenTestIsEquality(expected: Token, candidate: Token)
    requires OneBytePerCharacter(expected) && OneBytePerCharacter(candidate)
    ensures IsTokenValid(Some(expected), Some(candidate)) <==> candidate == expected
  {
    TokenTestIsPrefixTest(Some(expected), Some(candidate));
    OneByteTokensAreTheirBytes(expected);
    OneByteTokensAreTheirBytes(candidate);
    if IsTokenValid(Some(expected), Some(candidate)) {
      assert Utf8(expected) == Utf8(candidate);
      forall i | 0 <= i < |expected| ensures candidate[i] == expected[i] {}
    }
  }

  lemma {:induction false} Utf8Append(a: Token, b: Token)
    ensures Utf8(a + b) == Utf8(a) + Utf8(b)
    decreases |a|
  {
    if a == [] {
      assert a + b == b;
    } else {
      assert (a + b)[0] == a[0] && (a + b)[1..] == a[1..] + b;
      Utf8Append(a[1..], b);
    }
  }

  /** The token with a combining accent (U+0301) on its last character. */
  function Accented(t: Token): Token
    requires t != []
  {
    t[..|t| - 1] + [t[|t| - 1] + [0xCC, 0x81]]
  }

  /** Without that the test is weaker than equality: any token at all passes for itself with an accent on its last character, and the reverse. */
  lemma EveryTokenHasAnImpostor(t: Token)
    requires t != []
    ensures Accented(t) != t
    ensures IsTokenValid(Some(t), Some(Accented(t))) && IsTokenValid(Some(Accented(t)), Some(t))
  {
    var front, last := t[..|t| - 1], t[|t| - 1];
    assert t == front + [last];
    Utf8Append(front, [last]);
    Utf8Append(front, [last + [0xCC, 0x81]]);
    assert Utf8(Accented(t)) == Utf8(t) + [0xCC, 0x81];
    TokenTestIsPrefixTest(Some(t), Some(Accented(t)));
    TokenTestIsPrefixTest(Some(Accented(t)), Some(t));
    assert Accented(t)[|t| - 1] != last;
  }

  // ---- Messages ------------------------------------------------------------------------------

  /** Swift's `Int`, into which it decodes ids and versions. */
  predicate FitsInt64(n: int) {
    -0x8000_0000_0000_0000 <= n < 0x8000_0000_0000_0000
  }

  type Int64 = n: int | FitsInt64(n)

  datatype Hello = Hello(protocolVersion: Int64, client: string, clientVersion: string, token: Option<Token>)

  datatype Request = Request(id: int, command: string, params: Json)

  datatype ErrorPayload = ErrorPayload(code: string, message: string, details: Option<Json>)

  datatype Descriptor = Descriptor(length: int, encoding: string, mimeType: string)

  datatype Reply = Reply(
    id: int, success: bool, result: Option<Json>, error: Option<ErrorPayload>, binary: Option<Descriptor>)

  /** What the agent sends in JSON frames. */
  datatype Down =
    | Welcome(protocolVersion: Int64, agentVersion: string, sessionId: string, device: Json)
    | Answer(reply: Reply)
  {
    /** The binary descriptor, if the message has one. */
    function Attachment(): Option<Descriptor> {
      if Answer? then reply.binary else None
    }

    /** The id the SDK correlates by; a message without one reads as -1. */
    function Id(): int {
      if Answer? then reply.id else -1
    }
  }

  function Success(id: int, result: Json): Reply {
    Reply(id, true, Some(result), None, None)
  }

  function Failure(id: int, error: ErrorPayload): Reply {
    Reply(id, false, None, Some(error), None)
  }

  /**
   JSON text, kept abstract: how each message type is written as bytes and read back. `None`
   from an encoder is an encoder that throws, from a decoder bytes it rejects.
  */
  datatype Wire = Wire(
    encodeHello: Hello -> seq<Byte>,
    decodeHello: seq<Byte> -> Option<Hello>,
    encodeRequest: Request -> seq<Byte>,
    decodeRequest: seq<Byte> -> Option<Request>,
    encodeDown: Down -> Option<seq<Byte>>,
    decodeDown: seq<Byte> -> Option<Down>)
  {
    /** Reading gives back what was written. */
    ghost predicate Faithful() {
      && (forall h: Hello :: decodeHello(encodeHello(h)) == Some(h))
      && (forall r: Request :: FitsInt64(r.id) ==> decodeRequest(encodeRequest(r)) == Some(r))
      && (forall d: Down :: encodeDown(d).Some? ==> decodeDown(encodeDown(d).value) == Some(d))
    }

    /** The message can be written, within the frame limit. */
    predicate Fits(d: Down) {
      encodeDown(d).Some? && |encodeDown(d).value| <= MAX_PAYLOAD_SIZE
    }
  }

  /** Whatever the SDK writes. */
  datatype Written = WroteHello(hello: Hello) | WroteRequest(request: Request)

  function UpFrame(wire: Wire, w: Written): Frame {
    Frame(Json, if w.WroteHello? then wire.encodeHello(w.hello) else wire.encodeRequest(w.request))
  }

  function UpFrames(wire: Wire, ws: seq<Written>): seq<Frame> {
    seq(|ws|, i requires 0 <= i < |ws| => UpFrame(wire, ws[i]))
  }

  // ---- The router ----------------------------------------------------------------------------

  /** How a command handler ended: with a result, with an `AgentError`, or with any other error. */
  datatype Outcome =
    | Completed(result: Json, binary: Option<seq<Byte>>, mimeType: string)
    | Refused(error: ErrorPayload)
    | Crashed(description: string)

  /** `CommandRouter.handle` after the handler ran: the reply and its attachment. */
  function Respond(id: int, outcome: Outcome): (Reply, Option<seq<Byte>>) {
    match outcome
    case Completed(result, binary, mimeType) =>
      var reply := Success(id, result);
      if binary.Some?
      then (reply.(binary := Some(Descriptor(|binary.value|, "raw", mimeType))), binary)
      else (reply, None)
    case Refused(error) => (Failure(id, error), None)
    case Crashed(description) => (Failure(id, ErrorPayload("INTERNAL_ERROR", description, None)), None)
  }
}
