# Sandstorm iOS: a verified model

Sandstorm drives iOS applications from Python. An agent inside an XCTest process speaks a framed
protocol over TCP; a Python SDK sends it commands; an Inspector takes snapshots of the
accessibility tree, lets a person click an element, and suggests locators for it. This Dafny
project models the parts where these three have to agree, and proves that they do, or exactly
when they do. `dafny verify dfyconfig.toml` checks it.

**The protocol, end to end.** `Framing` has the meaning of a byte buffer, and both readers of it:
the agent's incremental codec and the SDK's blocking reader, in their imperative form. `Messages`
has the messages, the token test and the router's replies; JSON text is an abstract pair of
encoders and decoders that are faithful to each other. `Groups` joins a reply and its attachment.
`Agent` is the connection, the handshake gate, the parse loop and the command queue, as classes
proved against functions; `Client` is the SDK's client with its discard loop and its
reconnect-and-resend loop, against any behaviour of sockets. `Session` puts all of it into one
step system: any number of clients and foreign peers, chunked delivery, a parsing thread and an
executing thread, failures and reconnects at any time. `SessionInvariant`, `SessionSteps` and
`SessionProof` prove an inductive invariant of it, and `SessionTheorems` what follows for every run.
`SessionRefinement` shows that what the classes do in a delivery, in serving the queue, in one
exchange and in connecting is a sequence of these steps, `SessionCalls` bounds what the agent
executes for one call, and `SessionProgress` shows that any command
can be asked, executed and answered, and that nothing executed goes unanswered.

**From snapshot to locator and back.** `Snapshot` serializes a tree into path-labelled nodes,
`Hierarchy` has the paths, the search by path and the hit test. `ElementTypes` and `Selectors`
are the selector on the wire, `Resolver` is what the agent's query finds. `Locators` counts,
suggests, ranks and builds; `Execution`, `LocatorSoundness` and `IndexSoundness` follow a
suggestion through wire and agent back to the tree, and `LocatorExamples` has snapshots for which
that ends well and badly. `PythonText`, `Inlining`, `PythonCode`, `PythonReading`, `PredicateCode` and
`DisplayedCode` read the code that is displayed as Python, and compare it with the locator that is
executed; `Recording` does so for the statements that are recorded.

**Dialogs and names.** `Recovery` runs an interaction in an environment that may raise a dialog at
any time. `Naming` is the recorder's choice of function names. `Decimal`, `JsonValues`, `Errors`
and `Wrappers` are shared.

Some promises do not hold as they are worded. In each case the model does what the code does, and
a theorem gives the exact condition:

- The token comparison is not string equality (`Messages.TokenTestIsPrefixTest`): it compares as
  many UTF-8 bytes as the shorter string has, after comparing numbers of characters. docs/PROTOCOL.md:62
  speaks of a wrong token being refused; but every token, plain ASCII too, passes for itself with a
  combining accent on its last character (`Messages.EveryTokenHasAnImpostor`).
- A unique suggestion need not find its element (`LocatorSoundness.Findable` is the condition):
  the Inspector strips names before counting them, counts the root, and prints types the mapper
  does not list as `XCUIElementTypeOther`. The index suggestion has the same causes of failure
  (`IndexSoundness.IndexFindable`). Inputs that fail are `LocatorExamples.UntrimmedNameFindsAnother`
  and `LocatorExamples.UnlistedSpoilsTheIndex`.
- Displayed code is the executed locator only for values that `inline` leaves alone, and for
  predicates only without apostrophes and backslashes, which each double quote in a name brings along
  (`DisplayedCode.Survives`); the docstring of `build` promises it for all. Inputs that fail are
  `DisplayedCode.SpaceIsLost` and `DisplayedCode.QuoteSpoilsThePredicate`.
- A number given in the compact selector form under a strategy for text is not the number's text, and
  text under `index` need not read as the SDK reads it (`Selectors.CompactMeansByStrategy`), though
  docs/PROTOCOL.md:136-137 says the form is normalized.
- The branch of `function_name` for an empty prefix and a leading digit cannot be reached, because
  every name starts with the empty prefix; and without a prefix a name may be a keyword
  (`Naming.WithoutPrefix`, `Naming.TitlesWithoutAName`).

## Model

| member | source | states |
|---|---|---|
| `SessionTheorems.RepliesBelongToTheirCommands` | ios-sdk/sandstorm_ios/transport.py:205-243 | In every run, a reply returned by a client carries the result, or the error, and the bytes with which the agent's execution of that very request on that very connection ended, and no other execution for this client has its id |
| `SessionTheorems.NoMoreExecutionsThanIds` | ios-sdk/sandstorm_ios/transport.py:138-156 | In every run, of a client's commands with ids in an interval the agent executes at most as many as the interval has ids; resends cannot multiply executions beyond the ids spent |
| `SessionTheorems.OneExecutionPerId` | ios-sdk/sandstorm_ios/transport.py:209-210 | No two executions for one client, on whatever connections, share an id, because the counter survives close and reconnect |
| `SessionTheorems.ExecutedWasAsked` | ios-agent/Sources/Agent/Net/CommandServer.swift:196-200 | Whatever is executed for an SDK client was written by that client on that connection |
| `SessionTheorems.RequestsAreConserved` | ios-agent/Sources/Agent/Net/CommandServer.swift:196-200 | On every SDK connection and at every moment, the requests written are those executed, then those queued, then those not yet parsed, in growing id order: none lost, repeated or overtaken |
| `SessionTheorems.ExecutionFollowsArrival` | ios-agent/Sources/Agent/AutomationServerTests.swift:38-42 | Commands of all connections are executed in global arrival order, each arrival at most once |
| `SessionTheorems.ExecutionNeedsHandshake` | ios-agent/Sources/Agent/Net/CommandServer.swift:185-249 | A command is executed only if its connection, an SDK client's or any other peer's, had already been accepted on a handshake of version 1 and, if the agent has a token, with a token there, of as many characters, and one UTF-8 string a prefix of the other |
| `SessionTheorems.OutgoingIsGrouped` | ios-agent/Sources/Agent/Net/CommandServer.swift:93-99 | The bytes sent on an SDK connection are at every moment the beginning of a run of whole groups, and all of it while the agent keeps the connection open: each a JSON frame with exactly the binary frame it announces; first the handshake reply, a welcome if the client was accepted, then answers to this connection's commands with growing ids |
| `SessionTheorems.FramingErrorsNeverFire` | ios-sdk/sandstorm_ios/transport.py:219-232 | A client reading in any reachable state either waits or gets the next group; unexpected, missing and truncated attachments do not occur |
| `SessionTheorems.ParsingIsSilentPastTheGate` | ios-agent/Sources/Agent/Net/CommandServer.swift:185-208 | Past the handshake the parsing thread writes nothing on an SDK connection, so it cannot separate a reply from its attachment |
| `SessionTheorems.DiscardLoopIsExact` | ios-sdk/sandstorm_ios/transport.py:218-243 | A discarded reply has a smaller id than the awaited one; when the loop returns, no request or reply of that connection is queued or in flight |
| `SessionTheorems.HistoryGrows` | ios-agent/Sources/Agent/AutomationServerTests.swift:38-42 | No step takes back an arrival, an execution, a returned reply or an accepted handshake |
| `SessionProgress.ACommandIsAnswered` | docs/PROTOCOL.md:60-98 | From any initial state, for any client with the credentials, any command within the limits and any way in which it ends, there is a run in which it connects and asks, the agent executes the command once, and the client is returned its result or error, with its bytes |
| `SessionProgress.EveryExecutionIsAnswered` | ios-agent/Sources/Agent/AutomationServerTests.swift:38-42 | In every run, the answer of each executed command is among the groups sent on its connection, as long as that is open, unless the answer cannot be encoded: no reply is lost |
| `SessionProof.StepKeepsInv` | docs/PROTOCOL.md:60-98 | Every step of clients, network, parsing thread, executing thread or foreign peer keeps the invariant of the whole system |
| `SessionTheorems.RunKeepsInv` | docs/PROTOCOL.md:60-98 | The invariant holds in every state of every run |
| `SessionRefinement.DeliveryIsSteps` | ios-agent/Sources/Agent/Net/CommandServer.swift:45-67 | One delivery, as the receive loop handles it, is a sequence of steps of the system with the same connection and the same queue at the end |
| `SessionRefinement.ServingIsSteps` | ios-agent/Sources/Agent/AutomationServerTests.swift:38-42 | Executing the first commands of the queue, as the executing loop does it, is a sequence of steps that sends each connection the answers to its own commands |
| `SessionRefinement.SameAnswers` | ios-agent/Sources/Agent/AutomationServerTests.swift:38-42 | The answers the executing loop sends on a connection are those that its steps send |
| `SessionRefinement.AwaitingIsSteps` | ios-sdk/sandstorm_ios/transport.py:218-243 | In a reachable state, the discard loop's result is reached by a sequence of reading steps: the same reply returned, the same bytes left unread, the queue untouched |
| `SessionRefinement.InvokingIsSteps` | ios-sdk/sandstorm_ios/transport.py:199-243 | One exchange, however it ends (a reply, a time-out or a lost connection, after any number of discarded replies), with anything the others do in between, is a sequence of steps: the same id spent, the same request written, the same reply returned, the same bytes left |
| `SessionRefinement.FailingToWriteIsAStep` | ios-sdk/sandstorm_ios/transport.py:209-216 | An exchange whose write fails is a step that spends its id and writes nothing |
| `SessionRefinement.ConnectingIsSteps` | ios-sdk/sandstorm_ios/transport.py:170-197 | Opening a socket, writing the handshake and reading its reply, with anything the others do in between, is a sequence of steps that spends no id |
| `SessionRefinement.HandshakeEndToEnd` | ios-sdk/sandstorm_ios/transport.py:170-197 | What the client makes of the agent's answer to its handshake: connected if and only if version and token are right; a wrong token raises the unauthorized exception, a wrong version a protocol error |
| `SessionCalls.OneCallIsExecutedAtMost` | ios-sdk/sandstorm_ios/transport.py:124-156 | In every run, if one call of invoke exchanges its command at most max_retries + 1 times, then at any later time the agent has executed commands under its ids at most that often, and each of them was this command with these parameters |
| `SessionCalls.CallAsks` | ios-sdk/sandstorm_ios/transport.py:138-143 | At any time from the start of a call on, every request written under one of its ids is its command with its parameters |
| `SessionCalls.CounterCounts` | ios-sdk/sandstorm_ios/transport.py:209-210 | Between two moments the counter of a client grows by exactly the exchanges it began, whatever connections were made or lost |
| `Client.AwaitFindsTheFirst` | ios-sdk/sandstorm_ios/transport.py:218-243 | On a stream of whole groups the discard loop finds the first reply with the awaited id and stops right behind it |
| `Client.ControllerClient.Close` | ios-sdk/sandstorm_ios/transport.py:104-113 | Closing forgets the socket and the reader; the id counter and what was written stay |
| `Client.ControllerClient.SendJson` | ios-sdk/sandstorm_ios/transport.py:245-253 | A frame is written whole on the socket's line of the network, or nothing is; an oversized payload, a write that times out and one that breaks each raise their own exception |
| `Client.ControllerClient.ReadReply` | ios-sdk/sandstorm_ios/transport.py:219-234 | Two frame reads make one group: what is read is what the value-level reading of the stream gives, a group or the exception for what is none; if reading fails before that, it is a connection error |
| `Client.ControllerClient.AwaitMatching` | ios-sdk/sandstorm_ios/transport.py:217-243 | The loop ends with what the value-level search for the id gives, a reply or an exception, whatever recv returns; or it times out, exactly at the first discarded reply past the deadline; or reading fails, which is a connection error, and does not happen unless the socket fails |
| `Client.ControllerClient.InvokeOnce` | ios-sdk/sandstorm_ios/transport.py:199-243 | One exchange: a fresh id one larger, spent even if nothing is written; one more frame on the whole network, which is this command under that id, if and only if it is short enough and the write does not fail, else none, and the exception for that; without a socket the session is lost; the reply returned is the first with that id in the stream, nothing behind it read; without failures and deadline the outcome is what the stream says, otherwise that, a time-out or a connection error |
| `Client.ControllerClient.PerformHandshake` | ios-sdk/sandstorm_ios/transport.py:179-197 | Writes the handshake frame or nothing, and reads at most one frame: a write that fails raises its own exception; else the result is what that frame means, or a connection error if reading it fails; without failures exactly what the stream says |
| `Client.GreetingMeans` | ios-sdk/sandstorm_ios/transport.py:179-197 | The frame read is accepted if and only if it is a welcome of the version asked for; a failure raises the exception of its own code, text that is no message the JSON error, all else a protocol error |
| `Client.ControllerClient.Attempt` | ios-sdk/sandstorm_ios/transport.py:86-90 | One dial, then the handshake on the new socket: what is written is nothing, or the handshake alone |
| `Client.ControllerClient.Connect` | ios-sdk/sandstorm_ios/transport.py:79-102 | Attempts are made up to retries + 1, each answered by the next dial and ending as that dial behaves; only a connection error is tried again; any other exception passes through at once, and a success ends it; the result is that of the last; no id is spent and no command written; after giving up, all were used and there is no socket |
| `Client.ControllerClient.Invoke` | ios-sdk/sandstorm_ios/transport.py:124-156 | A success is returned as it is, a reported failure raises the exception of its own code, and both are final; only after a connection error, or without a socket, does it connect again, once or twice, and exchange again, max_retries + 1 times at most, once without retry; the new connection's refusal is raised; everything written is handshakes and this command under fresh growing ids, one per exchange at most; the reply is the first with its id in that exchange's stream; giving up means all turns were spent; where nothing can go wrong one exchange succeeds |
| `Client.ResentIdsGrow` | ios-sdk/sandstorm_ios/transport.py:209-210 | The requests that a call writes are one command with one set of parameters, under ids that grow from one to the next |
| `Client.SmoothCall` | ios-sdk/sandstorm_ios/transport.py:124-156 | A call that begins with a connected socket, no failures to come and its reply in the stream has it after one exchange |
| `Client.Reported` | ios-sdk/sandstorm_ios/errors.py:90-97 | The exception for a reported failure is never one that resends the command, whatever the code |
| `Errors.ClassFor` | ios-sdk/sandstorm_ios/errors.py:73-94 | No agent error code, known or unknown, maps to one of the two classes that trigger a resend |
| `Errors.OwnCodesRaiseTheirClass` | ios-sdk/sandstorm_ios/errors.py:24-88 | The code of an exception class, reported by the agent, raises that class again, but for the five codes the agent does not report, which raise the base class |
| `Errors.CodesOfEachClass` | ios-sdk/sandstorm_ios/errors.py:72-94 | For each exception class, exactly the agent's codes that raise it; all others, known or not, raise the base class |
| `Framing.ParseEncoded` | ios-agent/Sources/Agent/Net/FrameCodec.swift:29-73 | Decoding an encoded frame gives it back and takes not one byte of what follows |
| `Framing.ParsedIsEncoded` | ios-agent/Sources/Agent/Net/FrameCodec.swift:53-73 | A buffer that parses is exactly the encoding of the frame, then the rest; each frame shrinks it by at least five bytes |
| `Framing.BigEndianRoundTrip` | ios-agent/Sources/Agent/Net/FrameCodec.swift:32-62 | The 32-bit big-endian length written is the length read |
| `Framing.BigEndianSurjective` | ios-agent/Sources/Agent/Net/FrameCodec.swift:62 | Every four bytes are the encoding of the length they read as |
| `Framing.VerdictsOnABuffer` | ios-agent/Sources/Agent/Net/FrameCodec.swift:53-73 | A buffer parses if and only if it begins with an encoding of a frame within the limit, is incomplete if and only if it lacks a header or is the beginning of one, and is malformed if and only if it is neither |
| `Framing.KnownFrames` | docs/PROTOCOL.md:17-21 | The format byte for byte: type 1 for JSON and 2 for binary, then a four-byte big-endian length, of 64 MiB at most |
| `Framing.ParseStable` | ios-agent/Sources/Agent/Net/FrameCodec.swift:53-73 | More bytes never change a verdict already reached |
| `Framing.ChunkingIsInvisible` | ios-agent/Sources/Agent/Net/CommandServer.swift:48-54 | Append-and-drain over any chunking agrees with draining the whole stream: same frames, same failure, same remainder |
| `Framing.FramesSurviveChunking` | ios-agent/Sources/Agent/Net/CommandServer.swift:48-54 | Any frames, encoded, concatenated and cut anywhere, come out unchanged and in order, with an empty buffer at the end |
| `Framing.BufferIsTheRemainder` | ios-agent/Sources/Agent/Net/CommandServer.swift:48-54 | After each chunk the buffer is precisely the undecoded remainder and holds no whole frame; the frames so far are a prefix of those sent |
| `Framing.LostPlaceGoesUnnoticed` | ios-sdk/sandstorm_ios/protocol/framing.py:46-54 | A reader off by a header accepts the inside of a binary frame as a frame: the header check does not detect lost sync |
| `Framing.EncodeFrame` | ios-agent/Sources/Agent/Net/FrameCodec.swift:29-36 | The byte-by-byte encoder writes the type, the big-endian length and the payload, for every length below 2^32 |
| `Framing.FrameCodec.Append` | ios-agent/Sources/Agent/Net/FrameCodec.swift:48-50 | The buffer grows by exactly the data |
| `Framing.FrameCodec.NextFrame` | ios-agent/Sources/Agent/Net/FrameCodec.swift:53-73 | Returns and cuts off exactly the first whole frame; leaves the buffer alone when there is none or the header is bad |
| `Framing.FrameReader.ReadExactly` | ios-sdk/sandstorm_ios/protocol/framing.py:56-70 | Exactly the bytes asked for and none beyond them, whatever sizes recv returns; fails only for a time-out, an error or the end of the stream |
| `Framing.FrameReader.ReadFrame` | ios-sdk/sandstorm_ios/protocol/framing.py:46-54 | The blocking reader computes what the incremental parser computes on the same bytes: same frame and rest, same refusals |
| `Framing.FrameReader.ReadUntilFailure` | ios-sdk/sandstorm_ios/protocol/framing.py:46-70 | Frame after frame until something fails: on a connection that does not fail, exactly the frames, and the failure, of draining the whole stream; on any, a prefix of them |
| `Groups.ReadWritten` | ios-sdk/sandstorm_ios/transport.py:219-234 | A well-formed reply group is read back whole, and nothing after it is touched |
| `Groups.ReadArrived` | ios-sdk/sandstorm_ios/transport.py:219-234 | On any part that has arrived of well-formed groups the client waits or gets the first; none of its framing errors can occur |
| `Groups.ReadIsWhole` | ios-sdk/sandstorm_ios/transport.py:219-234 | A group is read if and only if the stream begins with a JSON frame that decodes to its message and, exactly if that announces an attachment, a binary frame of the length announced |
| `Groups.TwoFrames` | ios-sdk/sandstorm_ios/transport.py:219-234 | Which error two frames give that are no group: a binary frame first, text that is no message, no binary frame where one is announced, or one of another length |
| `Groups.AnswerTo` | ios-agent/Sources/Agent/Commands/CommandRouter.swift:42-62 | A reply echoes the id and carries the command's own result or error, or INTERNAL_ERROR for a crash; it announces exactly the bytes attached, with their type, and has an attachment only when the command completed with one |
| `Groups.UnencodableReply` | ios-agent/Sources/Agent/Net/CommandServer.swift:84-99 | If the reply cannot be encoded its attachment is sent alone, which the client rejects; without an attachment nothing is sent |
| `Messages.TokenTestIsPrefixTest` | ios-agent/Sources/Agent/Core/AgentConfiguration.swift:33-38 | What the constant-time test accepts, exactly: anything if the agent has no token; else a token that is there, of equally many characters, and one UTF-8 string a prefix of the other |
| `Messages.TokenTestIsEquality` | ios-agent/Sources/Agent/Core/AgentConfiguration.swift:33-38 | Where both tokens are of one-byte characters the test is equality |
| `Messages.EveryTokenHasAnImpostor` | ios-agent/Sources/Agent/Core/AgentConfiguration.swift:33-38 | Every token but the empty one has an impostor: with a combining accent on its last character it is another token, each passes for the other |
| `Agent.GateOpensExactlyFor` | ios-agent/Sources/Agent/Net/CommandServer.swift:210-248 | The gate opens for a payload that decodes to version 1 and, if the agent has a token, a token like it, and for nothing else; the answer is a welcome, or one failure with id 0 whose code tells a wrong token from all else, after which the connection is closed |
| `Agent.BeforeTheGate` | ios-agent/Sources/Agent/Net/CommandServer.swift:185-208 | Before the handshake nothing is queued; binary frames are passed over, and the first JSON frame decides: it opens the gate exactly if it presents the credentials, and is answered and closed on otherwise; a bad frame closes unanswered |
| `Agent.NothingQueuedBeforeTheGate` | ios-agent/Sources/Agent/Net/CommandServer.swift:185-208 | A frame is queued as a command only on an accepted connection, and a connection once accepted stays accepted |
| `Agent.OnlyABadFrameCloses` | ios-agent/Sources/Agent/Net/CommandServer.swift:185-208 | Past the handshake only a bad frame closes the connection; binary frames are passed over; a payload that is no request is answered by one failure with id -1, any other is queued as it decodes and answered by nothing yet |
| `Agent.AgentConnection.SendJson` | ios-agent/Sources/Agent/Net/CommandServer.swift:84-91 | One JSON frame, or nothing when encoding throws |
| `Agent.AgentConnection.SendResponse` | ios-agent/Sources/Agent/Net/CommandServer.swift:94-99 | The reply frame, then the attachment frame, each after what was sent before |
| `Agent.AgentConnection.MarkHandshakeComplete` | ios-agent/Sources/Agent/Net/CommandServer.swift:69-74 | Sets the flag and the session id, nothing else |
| `Agent.CommandServer.PerformHandshake` | ios-agent/Sources/Agent/Net/CommandServer.swift:210-248 | Marks and welcomes, or answers with the right refusal and closes, branch by branch |
| `Agent.CommandServer.Handle` | ios-agent/Sources/Agent/Net/CommandServer.swift:185-208 | A frame becomes a queued command, a handshake, a malformed-request reply or nothing, and changes only its connection and the queue's end |
| `Agent.CommandServer.Receive` | ios-agent/Sources/Agent/Net/CommandServer.swift:45-67 | A delivery appends and handles every whole frame, as the value-level loop does; a bad frame or the end of the stream closes, and the end of the stream, unless a bad frame came first, takes the connection off the list |
| `Agent.CommandServer.Remove` | ios-agent/Sources/Agent/Net/CommandServer.swift:181-183 | Removes every occurrence of the connection and nothing else |
| `Agent.WithoutInParts` | ios-agent/Sources/Agent/Net/CommandServer.swift:181-183 | What removal leaves of a list is what it leaves of its parts, in order; so the other connections stay as often and in the order they were |
| `Agent.CommandServer.Dequeue` | ios-agent/Sources/Agent/Net/CommandServer.swift:252-256 | Takes the oldest command, or none when there is none |
| `Agent.ServePending` | ios-agent/Sources/Agent/AutomationServerTests.swift:38-42 | The queue is executed from its head until empty, and each connection is sent the answers to its own commands, in order, and nothing else |
| `Snapshot.SerializedIsEmitted` | ios-agent/Sources/Agent/Elements/SnapshotSerializer.swift:31-71 | The pruning rule: the walk over a serialized tree meets exactly the kept elements, in pre-order, with their own attributes and original paths, and `truncated` exactly at the depth limit with children |
| `Snapshot.VisibleMeansOnScreen` | ios-agent/Sources/Agent/Elements/SnapshotSerializer.swift:74-84 | A frame counts as visible if and only if it has an inside and, where the screen has one too, the two share a point |
| `Snapshot.PreorderIsComplete` | ios-inspector/sandstorm_inspector/locators.py:46-50 | The pre-order list holds exactly the addresses that lead to an element |
| `Snapshot.PreorderIsInOrder` | ios-inspector/sandstorm_inspector/locators.py:46-50 | In that list parents come before children, and earlier children, with all below them, before later ones |
| `Hierarchy.EmittedIffKept` | ios-agent/Sources/Agent/Elements/SnapshotSerializer.swift:31-71 | An element has a node if and only if it is no deeper than maxDepth and, unless all are included, visible with all its ancestors; the node describes it and its place |
| `Hierarchy.NodesSayWhatTheyAre` | ios-agent/Sources/Agent/Elements/SnapshotSerializer.swift:31-71 | The node with an element's path has the element's attributes, each under its own name, says whether it is visible, and says truncated exactly at the depth limit with children |
| `Hierarchy.PathRoundTrip` | ios-agent/Sources/Agent/Elements/SnapshotSerializer.swift:60-63 | A printed path reads back as the child indices it was printed from |
| `Hierarchy.PathsAreInjective` | ios-agent/Sources/Agent/Elements/SnapshotSerializer.swift:60-63 | Different addresses print different paths |
| `Hierarchy.PathsAreDistinct` | ios-agent/Sources/Agent/Elements/SnapshotSerializer.swift:27-71 | No two nodes of a serialized tree have the same path, even after siblings were filtered out |
| `Hierarchy.FindByPath` | ios-inspector/sandstorm_inspector/hierarchy.py:55-59 | Finds a node with the path, or there is none |
| `Hierarchy.FindNodeAgain` | ios-inspector/sandstorm_inspector/hierarchy.py:55-59 | A node's own path finds that very node |
| `Hierarchy.HitTest` | ios-inspector/sandstorm_inspector/hierarchy.py:36-52 | Of the nodes that may be hit, have an inside and have the point on their frame, borders included, one than which none is smaller, the first in pre-order on ties; none exactly when there is no such node |
| `Hierarchy.TightestIsUnique` | ios-inspector/sandstorm_inspector/hierarchy.py:36-52 | That description determines the node |
| `Hierarchy.PruningKeepsTheHit` | ios-agent/Sources/Agent/Elements/SnapshotSerializer.swift:38-66 | If no visible element lies under an invisible one, the visible-only tree and the full tree give the same hit |
| `Hierarchy.PruningKeepsEligibility` | ios-agent/Sources/Agent/Elements/SnapshotSerializer.swift:38-66 | Under the same condition, the visible-only tree has a hit exactly when the full tree has one |
| `Hierarchy.PruningNeverTightens` | ios-agent/Sources/Agent/Elements/SnapshotSerializer.swift:38-66 | Without that condition the visible-only tree still never gives a smaller element than the full tree |
| `ElementTypes.TypeNameRoundTrip` | ios-agent/Sources/Agent/Elements/ElementSelector.swift:153-173 | A printed type name reads back as the type if the mapper lists it, and as `other` if not |
| `ElementTypes.BareNames` | ios-agent/Sources/Agent/Elements/ElementSelector.swift:152-160 | A listed type's name without the prefix reads as that type too |
| `ElementTypes.UnknownNames` | ios-agent/Sources/Agent/Elements/ElementSelector.swift:152-160 | A name without the prefix that the table does not have reads as any type |
| `Selectors.ToWire` | ios-sdk/sandstorm_ios/protocol/selector.py:80-99 | The dictionary filled key by key holds exactly the criteria that are there |
| `Selectors.WireEntry` | ios-sdk/sandstorm_ios/protocol/selector.py:80-99 | What stands under each key, and that there are no other keys |
| `Selectors.NearestIsExact` | ios-agent/Sources/Agent/Protocol/JSONValue.swift:65-77 | A whole number survives the trip through a Double exactly when it is a multiple of the spacing of doubles there |
| `Selectors.NearestIsNear` | ios-agent/Sources/Agent/Protocol/JSONValue.swift:65-77 | Otherwise it becomes the nearest multiple of the spacing, of two equally near the even one, and a negative number the negative of that |
| `Selectors.DecodeSays` | ios-agent/Sources/Agent/Elements/ElementSelector.swift:22-65 | Decoding of any JSON, in full, for numbers that fit Int: each criterion is its own field or else the compact form's value, exact is true unless said otherwise, a null parent is none, a parent's failure is the whole's, and what is no object, names an unknown strategy or has no criterion is refused |
| `Selectors.DecodeTraps` | ios-agent/Sources/Agent/Elements/ElementSelector.swift:22-65 | With a number that does not fit Int decoding traps, unless the strategy is unknown, which is refused first |
| `Selectors.SelectorRoundTrip` | ios-agent/Sources/Agent/Elements/ElementSelector.swift:22-65 | A parent chain of any length arrives as sent if and only if each level has a criterion of its own and each index is a Double that fits Int |
| `Selectors.CompactMeansByStrategy` | ios-sdk/sandstorm_ios/protocol/selector.py:54-69 | The compact form decodes like by_strategy followed by to_wire: under strategies for text, if and only if the value is text; under `index`, if and only if the value is a number or its text reads as the same Int for the agent as for the SDK; unsupported strategies are refused by both, and text that is no index to the SDK is refused if and only if it is no number to the agent |
| `Resolver.BuildPredicate` | ios-agent/Sources/Agent/Elements/ElementSelector.swift:82-109 | The predicate built holds of an element exactly when all criteria that are there do: each attribute is the text or, where exact is false, has it somewhere inside, and text is in one of four; there is none exactly when there are no criteria but type and index |
| `Resolver.OccursSomewhere` | ios-agent/Sources/Agent/Elements/ElementSelector.swift:82-109 | The containment test is true exactly if the part is found somewhere in the whole |
| `Resolver.ParentIndexIsDropped` | ios-agent/Sources/Agent/Elements/ElementResolver.swift:16-27 | A parent's index has no effect on what a chained query finds |
| `Resolver.QueryFinds` | ios-agent/Sources/Agent/Elements/ElementResolver.swift:16-27 | A query finds, in the order of the tree, exactly the elements that fit and lie below the root or, in a chain, below the one element its parent's query finds; nothing if that finds none; and it fails if and only if that fails or finds several |
| `Resolver.ChainsDescend` | ios-agent/Sources/Agent/Elements/ElementResolver.swift:16-27 | A chain finds something only if its parent finds exactly one element, and all it finds lies below that one |
| `Resolver.StrategyAsks` | ios-sdk/sandstorm_ios/protocol/selector.py:54-69 | What each strategy of the SDK asks of an element: its identifier, its label, text in any of four attributes, its type, or the predicate |
| `Locators.CountMatches` | ios-inspector/sandstorm_inspector/locators.py:53-58 | The number of nodes that have all the criteria, each compared with its own attribute |
| `Locators.FindIndexAmongSiblingsOfType` | ios-inspector/sandstorm_inspector/locators.py:204-214 | The position, among nodes of the same type, of the first with the element's path |
| `Locators.OfferedExactlyWhen` | ios-inspector/sandstorm_inspector/locators.py:88-198 | Each strategy has a suggestion exactly when its own condition on the element and the tree holds |
| `Locators.Scores` | ios-inspector/sandstorm_inspector/locators.py:93-198 | The score of every suggestion, by strategy and uniqueness, and what unique means for a text |
| `Locators.Recommend` | ios-inspector/sandstorm_inspector/locators.py:71-201 | The ranking is a reordering of the candidates, sorted by score, uniqueness and strategy name |
| `Locators.BestLocator` | ios-inspector/sandstorm_inspector/locators.py:217-219 | None exactly when there is no candidate; otherwise a candidate than which none has a better score, or the same and is unique where it is not, or the same in both and an earlier name |
| `Locators.BestFollowsTheRules` | ios-inspector/sandstorm_inspector/locators.py:71-85 | The best suggestion is the identifier whenever that is unique, and the index only for an element with neither identifier nor label nor text |
| `Locators.NamesInOrder` | ios-inspector/sandstorm_inspector/locators.py:200 | The tie-breaker of the ranking is Python's order on the strategy names |
| `LocatorSoundness.OnlyOneMatches` | ios-inspector/sandstorm_inspector/locators.py:53-58 | A count of one means that no two nodes match |
| `LocatorSoundness.UniqueSuggestionFindsItsElement` | ios-inspector/sandstorm_inspector/locators.py:93-154 | On a whole snapshot, a unique suggestion by identifier or label, with or without type, once built, sent, decoded and resolved finds its element if and only if that is not the root, its name has no surrounding whitespace, and a type named along is listed (for `any`: no earlier element has the name) |
| `LocatorSoundness.TextSuggestionFindsItsElement` | ios-inspector/sandstorm_inspector/locators.py:156-166 | A suggestion by text finds its element if and only if no earlier element shows the text as label, value, title or placeholder |
| `IndexSoundness.IndexSuggestionFindsItsElement` | ios-inspector/sandstorm_inspector/locators.py:186-214 | On a whole snapshot an index suggestion finds its element if and only if the position the Inspector counts is the position the agent counts, spelled out by types |
| `IndexSoundness.BestIsSound` | ios-inspector/sandstorm_inspector/locators.py:200-219 | If some suggestion by identifier or label is unique, the best suggestion is a unique one by identifier or label |
| `IndexSoundness.FindByBestLocator` | ios-inspector/sandstorm_inspector/app.py:533-540 | The best suggestion, executed, finds the element exactly when it is findable by the best one's strategy |
| `LocatorExamples.UntrimmedNameFindsAnother` | ios-inspector/sandstorm_inspector/locators.py:88-107 | Of two elements with the identifiers ` a` and `a`, both get the same unique suggestion, and it finds the second |
| `LocatorExamples.UnlistedSpoilsTheIndex` | ios-inspector/sandstorm_inspector/locators.py:186-214 | After an element of a type the mapper does not list, the index suggestion of one of type other does not find it |
| `LocatorExamples.ButtonByIndex` | ios-inspector/sandstorm_inspector/locators.py:186-214 | A button after another element of the screen is found by its index suggestion |
| `Execution.ResolvesTo` | ios-agent/Sources/Agent/Elements/ElementResolver.swift:29-35 | A selector without parent finds an element by how many matches come before it in pre-order, the root not counting |
| `Execution.WholeWalk` | ios-agent/Sources/Agent/Elements/SnapshotSerializer.swift:31-71 | The walk over an unpruned, untruncated snapshot describes every element in pre-order |
| `PythonText.StripTrims` | ios-inspector/sandstorm_inspector/locators.py:88-89 | Stripping leaves no whitespace at the ends and changes nothing exactly where there is none |
| `PythonText.StripTakesSpaces` | ios-inspector/sandstorm_inspector/locators.py:88-89 | What stripping takes away is whitespace, before and after what it leaves |
| `PythonReading.EscapedIsRead` | ios-inspector/sandstorm_inspector/locators.py:61-62 | An escaped value in a double-quoted literal reads back as the value, and the literal ends exactly at its closing quote, unless the value has a line feed, carriage return or NUL |
| `Inlining.WhatIsShownAsIs` | ios-inspector/sandstorm_inspector/locators.py:65-68 | Putting code on one line leaves a quoted value alone if and only if it has no line break and none of the spaces that are dropped |
| `DisplayedCode.CodeMeansAsShown` | ios-inspector/sandstorm_inspector/locators.py:93-198 | For all values, the displayed code reads as Python as a locator with the criteria and index executed, the value as shown; for a predicate, if what is shown holds no apostrophe, backslash or NUL |
| `DisplayedCode.DisplayedIsExecuted` | ios-inspector/sandstorm_inspector/locators.py:31-43 | Displayed code means the executed locator, for every snapshot node and every suggestion, if and only if the quoted value has no line break, no NUL and none of `( `, ` )`, `, )`, and a predicate moreover no apostrophe and no backslash |
| `PredicateCode.PredicateAgrees` | ios-inspector/sandstorm_inspector/locators.py:168-184 | The same for predicates, on all identifiers and labels: text put between apostrophes is read as itself exactly if it is shown as it is and holds no apostrophe, backslash or NUL |
| `PredicateCode.ReadingShortens` | ios-inspector/sandstorm_inspector/locators.py:168-184 | Reading a literal never gives more characters than it has, and as many only if it says itself |
| `DisplayedCode.SpaceIsLost` | ios-inspector/sandstorm_inspector/locators.py:65-68 | For the label `a ( b` the displayed locator asks for `a (b` |
| `DisplayedCode.QuoteSpoilsThePredicate` | ios-inspector/sandstorm_inspector/locators.py:168-184 | Whenever the identifier or the label holds a double quote or a backslash, the displayed predicate is not the executed one |
| `DisplayedCode.TypeNamesArePlain` | ios-agent/Sources/Agent/Elements/ElementSelector.swift:162-173 | Type names from the agent need no escaping |
| `Recording.RecordedIsPerformed` | ios-inspector/sandstorm_inspector/recorder.py:99-142 | Where the displayed locator is the executed one, the statement recorded for a tap, a clear or a fill performs that action on that locator, with the very text typed, if and only if the text has no line feed, carriage return or NUL; otherwise it is no statement |
| `Recording.LocatorStays` | ios-inspector/sandstorm_inspector/recorder.py:99-142 | A locator that is read whole is read the same when an action is chained to it |
| `Recovery.ChosenButton` | ios-agent/Sources/Agent/Commands/InteractionCommands.swift:205-206 | The label tapped is one of the dialog's: the first preferred one present, else the last or first by mode |
| `Recovery.CommandRouter.SetAlertPolicy` | ios-agent/Sources/Agent/Commands/InteractionCommands.swift:176-191 | The mode named and the strings among the buttons replace the policy, which is kept as a whole when the name is unknown; no name means manual |
| `Recovery.CommandRouter.HandleInterruptionIfNeeded` | ios-agent/Sources/Agent/Commands/InteractionCommands.swift:199-213 | Taps a button if and only if there is a dialog with buttons, dialogs are not to be left alone, and the button the policy chooses can be tapped; it is that button, tapped once and reported; under manual it does not even look |
| `Recovery.DialogsAreCleared` | ios-agent/Sources/Agent/Commands/InteractionCommands.swift:199-213 | Clearing, wherever recovery or waiting does it, taps exactly when a dialog is in the way in that sense |
| `Recovery.CommandRouter.WithInterruptionRecovery` | ios-agent/Sources/Agent/Commands/ElementCommands.swift:101-129 | Does event for event what the recovery rule says, against any environment |
| `Recovery.RecoveryLaws` | ios-agent/Sources/Agent/Commands/ElementCommands.swift:101-129 | One or two runs, the second only right after a dialog was cleared following the first run; at most two taps, all by the policy; success exactly if the last run completed or a replay found nothing left; failures are those of the last run; manual means one run and no tap |
| `Recovery.SecondRunExactlyWhen` | ios-agent/Sources/Agent/Commands/ElementCommands.swift:101-129 | A dialog in the way is cleared before the first run; there is a second run exactly if the first completed or failed for its element and then, after settling if it had completed, a dialog is in the way, which is cleared |
| `Recovery.CommandRouter.WaitForElement` | ios-agent/Sources/Agent/Commands/ElementCommands.swift:140-182 | Polls event for event: it looks, ends if the condition holds, else clears a dialog or pauses, ends if the deadline has passed, and looks again; it reports truly whether it tapped |
| `Recovery.RoundIs` | ios-agent/Sources/Agent/Commands/ElementCommands.swift:163-177 | One round of a wait: a look that finds the condition false, then a dialog in the way is cleared, or there is a pause |
| `Recovery.WaitingLaws` | ios-agent/Sources/Agent/Commands/ElementCommands.swift:163-177 | A wait that ends met found the condition true at its last look and false at every other; one that times out found it false at every look and is past the deadline; it runs nothing and taps by the policy |
| `Recovery.WaitEndsOnce` | ios-agent/Sources/Agent/Commands/ElementCommands.swift:163-177 | In one environment a wait can end in one way only, after one number of polls |
| `Naming.EveryTitleGivesATestName` | ios-inspector/sandstorm_inspector/recorder.py:225-234 | For every title the function name starts with test_, consists of lower-case letters, digits and single underscores, does not end in one, and is a name Python accepts |
| `Naming.NamesKeepTheLetters` | ios-inspector/sandstorm_inspector/recorder.py:225-234 | The name has the title's letters and digits, lower-cased, all of them and in their order |
| `Naming.NamesWithoutLetters` | ios-inspector/sandstorm_inspector/recorder.py:225-234 | A title without any gives the fixed name |
| `Naming.TestNamesStay` | ios-inspector/sandstorm_inspector/recorder.py:225-234 | A name is left alone if and only if it is already such a name |
| `Naming.FunctionNameIsIdempotent` | ios-inspector/sandstorm_inspector/recorder.py:225-234 | Naming a generated name changes nothing |
| `Naming.WithoutPrefix` | ios-inspector/sandstorm_inspector/recorder.py:230-233 | With an empty prefix Python accepts the name if and only if the title, but for other characters around it, does not begin with a digit and is no keyword in whatever case: the branch for a leading digit is never reached |
| `Naming.TitlesWithoutAName` | ios-inspector/sandstorm_inspector/recorder.py:225-234 | Two such titles: `1 a` and `Class` |

## Left out

- JSON text: messages are encoded by abstract functions, faithful to each other (`Messages.Wire`); JSON numbers are whole, so fractional values of elements keep their kind but not their text, and numbers beyond the range of a Double, which no decoder accepts, are not told apart from those beyond `Int`.
- Sockets, Network.framework, XCTest, run loops, clocks and randomness: `recv` gives any non-empty part, a time-out, an error or the end; deadlines and session ids are parameters; an XCTest query is a pre-order search over proper descendants, and a predicate given as text is an unknown function of the element.
- Several threads sharing one `ControllerClient`: after a failed exchange the SDK closes outside its lock; the model has one caller at a time for each client, and any number of clients.
- `sendall` that fails half-way: a write is all or nothing, so the loss of frame boundaries after a write time-out is not modelled.
- A time-out while the handshake is written, after which the SDK keeps the socket: `Client.ControllerClient.PerformHandshake` has it, the step system's `Connect` does not; there the handshake is always written.
- Parameters with numbers that a Double does not hold exactly: that the agent reads back the request that was written (`Messages.Wire.Faithful`) is a premise, and true of the parameters as the agent reads them.
- Reply grouping for peers other than the SDK: a malformed request is answered by the parsing thread, and such an answer can fall between a reply and its attachment; the grouping theorem is about connections opened by the SDK.
- Ids beyond 64 bits and payloads of 2^32 bytes or more: the agent rejects or traps there; the step system spends ids within 64 bits and delivers replies within the frame limit.
- Framing.LostPlaceGoesUnnoticed: shows one way in which lost sync goes unnoticed, not all of them.
- LocatorSoundness.UniqueSuggestionFindsItsElement: strings are equal when their characters are; the canonical equivalence and case rules of `NSPredicate` on Unicode are not modelled.
- IndexSoundness.IndexSuggestionFindsItsElement: for snapshots of at most 2^53 nodes, beyond which an index is no longer exact as a Double.
- Selectors.CompactMeansByStrategy: Python's `int` and Swift's `Double` are parameters; which texts they read alike is not worked out.
- PythonCode.ReadLiteral: octal, hexadecimal and named escapes, triple quotes and adjacent literals are not read; the displayed and recorded code that means what it should has none of them.
- Recording.RecordedIsPerformed: for taps, clears and fills on a suggested locator; coordinates, swipes, waits and assertions are not read.
- Hierarchy.HitTest: frames are real numbers; rounding, infinities and the rule for rectangles that only touch are those of exact arithmetic and open intersection.
- Element values that are neither text, flag nor number, which the agent sends as a description.
- The wording of a suggestion's reason, the report table, `node_title`, `describe` and the recorder's list of steps and boilerplate: plain text without invariants.
- `session.stop`, the idle time-out and the listener's state: they end the executing loop; the step system lets it run for ever.
- The controller (device discovery, building, signing, tunnels, profiles, supervision of the agent process): plumbing around the parts modelled here.
