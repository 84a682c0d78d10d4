/**
 Reply groups: a JSON frame, followed by one binary frame exactly when the message carries a
 binary descriptor. The agent writes groups, the SDK reads them back.
*/
module Groups {
  import opened Wrappers
  import opened Framing
  import opened Messages

  datatype Group = Group(message: Down, binary: Option<seq<Byte>>)

  /** What `send(response:binary:)` puts on the wire; an unencodable message leaves its attachment behind. */
  function ResponseBytes(wire: Wire, g: Group): seq<Byte> {
    var text := wire.encodeDown(g.message);
    (if text.Some? then Encode(Frame(Json, text.value)) else []) +
    (if g.binary.Some? then Encode(Frame(Binary, g.binary.value)) else [])
  }

  function GroupBytes(wire: Wire, gs: seq<Group>): seq<Byte> {
    if gs == [] then [] else ResponseBytes(wire, gs[0]) + GroupBytes(wire, gs[1..])
  }

  ghost predicate WellFormed(wire: Wire, g: Group) {
    && wire.Fits(g.message)
    && (g.binary.Some? <==> g.message.Attachment().Some?)
    && (g.binary.Some? ==>
      |g.binary.value| <= MAX_PAYLOAD_SIZE && g.message.Attachment().value.length == |g.binary.value|)
  }

  ghost predicate AllWellFormed(wire: Wire, gs: seq<Group>) {
    forall k :: 0 <= k < |gs| ==> WellFormed(wire, gs[k])
  }

  // ---- Reading ------------------------------------------------------------------------------

  datatype GroupError =
    | BadFrame(error: FrameError)
    | BadJson
    | UnexpectedBinary
    | MissingAttachment
    | TruncatedAttachment

  datatype GroupRead =
    | Waiting
    | Rejected(error: GroupError)
    | Got(group: Group, rest: seq<Byte>)

  /** One turn of the SDK's reading loop, on the bytes it can read. */
  function ReadGroup(wire: Wire, stream: seq<Byte>): GroupRead {
    match ParseFrame(stream)
    case Incomplete => Waiting
    case Malformed(e) => Rejected(BadFrame(e))
    case Parsed(Frame(Binary, _), _) => Rejected(UnexpectedBinary)
    case Parsed(Frame(Json, payload), rest) =>
      match wire.decodeDown(payload)
      case None => Rejected(BadJson)
      case Some(message) =>
        if message.Attachment().None? then Got(Group(message, None), rest)
        else ReadAttachment(message, message.Attachment().value.length, rest)
  }

  function ReadAttachment(message: Down, length: int, stream: seq<Byte>): GroupRead {
    match ParseFrame(stream)
    case Incomplete => Waiting
    case Malformed(e) => Rejected(BadFrame(e))
    case Parsed(f, rest) =>
      if f.kind != Binary then Rejected(MissingAttachment)
      else if |f.payload| != length then Rejected(TruncatedAttachment)
      else Got(Group(message, Some(f.payload)), rest)
  }

  /** A well-formed group is read back whole, and nothing after it is touched. */
  lemma ReadWritten(wire: Wire, g: Group, rest: seq<Byte>)
    requires wire.Faithful() && WellFormed(wire, g)
    ensures ReadGroup(wire, ResponseBytes(wire, g) + rest) == Got(g, rest)
  {
    var first := Frame(Json, wire.encodeDown(g.message).value);
    match g.binary
    case None =>
      assert ResponseBytes(wire, g) + rest == Encode(first) + rest;
      ParseEncoded(first, rest);
    case Some(data) =>
      var second := Encode(Frame(Binary, data)) + rest;
      assert ResponseBytes(wire, g) + rest == Encode(first) + second;
      ParseEncoded(first, second);
      ParseEncoded(Frame(Binary, data), rest);
  }

  /** The stream begins with the group: a JSON frame, and the binary frame it announces, or none if it announces none. */
  ghost predicate Begins(wire: Wire, stream: seq<Byte>, g: Group, rest: seq<Byte>) {
    exists text: seq<Byte> :: StartsWith(wire, stream, text, g, rest)
  }

  predicate StartsWith(wire: Wire, stream: seq<Byte>, text: seq<Byte>, g: Group, rest: seq<Byte>) {
    && wire.decodeDown(text) == Some(g.message) && |text| <= MAX_PAYLOAD_SIZE
    && match g.message.Attachment()
       case None => g.binary == None && stream == Encode(Frame(Json, text)) + rest
       case Some(descriptor) =>
         && g.binary.Some? && |g.binary.value| == descriptor.length <= MAX_PAYLOAD_SIZE
         && stream == Encode(Frame(Json, text)) + (Encode(Frame(Binary, g.binary.value)) + rest)
  }

  /** What is read as a group is one, whole: neither another frame nor one of another length passes for the attachment. */
  lemma ReadIsWhole(wire: Wire, stream: seq<Byte>, g: Group, rest: seq<Byte>)
    ensures ReadGroup(wire, stream) == Got(g, rest) <==> Begins(wire, stream, g, rest)
  {
    if ReadGroup(wire, stream) == Got(g, rest) {
      ParsedIsEncoded(stream);
      var first := ParseFrame(stream);
      if g.message.Attachment().Some? { ParsedIsEncoded(first.rest); }
      assert StartsWith(wire, stream, first.frame.payload, g, rest);
    }
    if text: seq<Byte> :| StartsWith(wire, stream, text, g, rest) {
      if g.binary.Some? {
        ParseEncoded(Frame(Json, text), Encode(Frame(Binary, g.binary.value)) + rest);
        ParseEncoded(Frame(Binary, g.binary.value), rest);
      } else {
        ParseEncoded(Frame(Json, text), rest);
      }
    }
  }

  /** What is wrong with two frames that are no group, and what is read of two that begin with one. */
  lemma TwoFrames(wire: Wire, first: Frame, second: Frame, rest: seq<Byte>)
    requires Sendable(first) && Sendable(second)
    ensures var r := ReadGroup(wire, Encode(first) + (Encode(second) + rest));
      if first.kind.Binary? then r == Rejected(UnexpectedBinary)
      else
        match wire.decodeDown(first.payload)
        case None => r == Rejected(BadJson)
        case Some(message) =>
          match message.Attachment()
          case None => r == Got(Group(message, None), Encode(second) + rest)
          case Some(descriptor) =>
            && (second.kind.Json? ==> r == Rejected(MissingAttachment))
            && (second.kind.Binary? && |second.payload| != descriptor.length ==> r == Rejected(TruncatedAttachment))
            && (second.kind.Binary? && |second.payload| == descriptor.length ==> r == Got(Group(message, Some(second.payload)), rest))
  {
    ParseEncoded(first, Encode(second) + rest);
    ParseEncoded(second, rest);
  }

  /** A verdict reached early is not revised when more bytes come. */
  lemma ReadGroupStable(wire: Wire, stream: seq<Byte>, more: seq<Byte>)
    ensures match ReadGroup(wire, stream)
      case Waiting => true
      case Rejected(e) => ReadGroup(wire, stream + more) == Rejected(e)
      case Got(g, rest) => ReadGroup(wire, stream + more) == Got(g, rest + more)
  {
    ParseStable(stream, more);
    match ParseFrame(stream)
    case Parsed(f, rest) => ParseStable(rest, more);
    case _ =>
  }

  /**
   Reading from any part that has arrived of a run of well-formed groups: the SDK waits, or gets
   the first group and is left with a part of the others. None of its framing errors can occur.
  */
  lemma ReadArrived(wire: Wire, arrived: seq<Byte>, gs: seq<Group>)
    requires wire.Faithful() && AllWellFormed(wire, gs)
    requires arrived <= GroupBytes(wire, gs)
    ensures var r := ReadGroup(wire, arrived);
      && !r.Rejected?
      && (r.Got? ==>
        && gs != [] && r.group == gs[0]
        && arrived == ResponseBytes(wire, gs[0]) + r.rest
        && r.rest <= GroupBytes(wire, gs[1..]))
  {
    var missing := GroupBytes(wire, gs)[|arrived|..];
    assert arrived + missing == GroupBytes(wire, gs);
    ReadGroupStable(wire, arrived, missing);
    if gs == [] {
      assert arrived == [];
    } else {
      var later := GroupBytes(wire, gs[1..]);
      ReadWritten(wire, gs[0], later);
      var r := ReadGroup(wire, arrived);
      if r.Got? {
        assert r.rest + missing == later;
        CutAtMissing(arrived, ResponseBytes(wire, gs[0]), r.rest, missing);
      }
    }
  }

  lemma CutAtMissing(arrived: seq<Byte>, first: seq<Byte>, rest: seq<Byte>, missing: seq<Byte>)
    requires arrived + missing == first + (rest + missing)
    ensures arrived == first + rest
  {
    assert first + (rest + missing) == (first + rest) + missing;
    assert arrived == (arrived + missing)[..|arrived|];
  }

  lemma {:induction false} GroupBytesAppend(wire: Wire, a: seq<Group>, b: seq<Group>)
    ensures GroupBytes(wire, a + b) == GroupBytes(wire, a) + GroupBytes(wire, b)
    decreases |a|
  {
    if a == [] {
      assert a + b == b;
    } else {
      assert (a + b)[0] == a[0] && (a + b)[1..] == a[1..] + b;
      GroupBytesAppend(wire, a[1..], b);
    }
  }

  // ---- The router's replies ------------------------------------------------------------------

  /** The group says how the command with the id ended: its result and its bytes, or its error. */
  predicate Carries(g: Group, id: int, outcome: Outcome) {
    && g.message.Answer? && g.message.reply.id == id
    && match outcome
       case Completed(result, binary, mimeType) =>
         && g.message.reply.success && g.message.reply.result == Some(result) && g.message.reply.error == None
         && g.binary == binary
         && g.message.reply.binary == if binary.None? then None else Some(Descriptor(|binary.value|, "raw", mimeType))
       case Refused(error) =>
         && !g.message.reply.success && g.message.reply.result == None && g.message.reply.error == Some(error)
         && g.binary == None && g.message.reply.binary == None
       case Crashed(description) =>
         && !g.message.reply.success && g.message.reply.result == None
         && g.message.reply.error == Some(ErrorPayload("INTERNAL_ERROR", description, None))
         && g.binary == None && g.message.reply.binary == None
  }

  /**
   The group the agent answers a command with. It echoes the id, carries the command's result or its
   error, only a completed command has an attachment, and the reply announces exactly the bytes that
   follow.
  */
  function AnswerTo(id: int, outcome: Outcome): (g: Group)
    ensures Carries(g, id, outcome)
    ensures g.message.Answer? && g.message.Id() == id
    ensures g.binary == if outcome.Completed? then outcome.binary else None
    ensures g.binary.Some? <==> g.message.Attachment().Some?
    ensures g.binary.Some? ==> g.message.Attachment().value.length == |g.binary.value|
    ensures g.message.reply.success <==> outcome.Completed?
  {
    var (reply, binary) := Respond(id, outcome);
    Group(Answer(reply), binary)
  }

  /**
   An unencodable reply: without an attachment nothing at all is written, which breaks no group;
   with one, the attachment alone is written, and the SDK loses its place.
  */
  lemma UnencodableReply(wire: Wire, id: int, outcome: Outcome, g: Group)
    requires g == AnswerTo(id, outcome)
    requires wire.encodeDown(g.message).None?
    requires g.binary.Some? ==> |g.binary.value| <= MAX_PAYLOAD_SIZE
    ensures
      if g.binary.None? then ResponseBytes(wire, g) == []
      else ReadGroup(wire, ResponseBytes(wire, g)) == Rejected(UnexpectedBinary)
  {
    if g.binary.Some? {
      assert ResponseBytes(wire, g) == Encode(Frame(Binary, g.binary.value)) + [];
      ParseEncoded(Frame(Binary, g.binary.value), []);
    }
  }
}
