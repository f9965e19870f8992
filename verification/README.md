# A verified model of the STOMP client library

The repository is a STOMP 1.2 client over an RFC 6455 WebSocket, with an example broker and a
ping-pong game on top. This project models its two stacked incremental codecs, its concurrent
transport, the client's session and subscription machine, the broker and the match, and proves what
they promise over every input, every cut of the byte stream, every run or every interleaving.

| file | what it holds |
|---|---|
| `Prelude.dfy`, `Decimal.dfy` | optional values, searching; `to_string`, `from_chars`, `stoi` |
| `StompFrame.dfy` | the frame object, its ordered header store, `serialize` |
| `StompParser.dfy` | a byte-at-a-time reference automaton (`StompScanner`) and the buffering parser proved equal to it (`StompParsing`) |
| `StompRoundTrip.dfy` | printing and parsing undo each other, for one frame and for streams |
| `WebSocket.dfy` | masks and bits (`ByteBits`), one frame there and back (`WsFrames`), the resumable decoder (`WsReceiver`) |
| `FullStack.dfy` | both codecs together |
| `TunnelWrite.dfy` | the write loop with partial accepts, any number of writers and of connections |
| `FrameOrder.dfy` | when the frames of concurrent writers stay whole, and what the other end then decodes |
| `Lifecycle.dfy` | `open`, `close`, `send` and the worker as interleaved atomic steps |
| `LifecyclePaths.dfy` | what a thread must have done by the time it gets somewhere, and calls that are reached |
| `StompClient.dfy`, `ClientRuns.dfy` | the client object, and what holds over its whole runs |
| `Unicode.dfy`, `TextFrame.dfy` | UTF-8, and frames of text against their bytes |
| `Broker.dfy`, `BrokerSend.dfy` | the broker, and what it makes of a frame with a body |
| `PubSub.dfy`, `Downlink.dfy` | publish/subscribe end to end, and with bytes in flight in both directions |
| `Handshake.dfy` | CONNECT and its answer, which lead to the world those runs start in |
| `Match.dfy`, `Scoring.dfy` | the match between the broker's game and the example client, and its scores as a count of what was read |
| `Base64.dfy`, `Url.dfy` | the two helpers of the connection set-up |

Objects whose methods update fields are classes, loops are loops; each method is proved against a
function of its inputs or its old state, and the properties are proved of those functions.

## How to read the models

* A string of the client is bytes: a sequence of characters, each standing for the byte with that
  code. The WebSocket layer uses numbers below 256; `FullStack` translates. A string of the broker is
  text: a sequence of code points. The broker's WebSocket library decodes the UTF-8 of a text frame and
  encodes what is sent (`Brokers.Heard`, `PubSub.Encoded`); a text frame that is not UTF-8 reaches no
  handler (section 8.1 of RFC 6455).
* The header masks and the exclusive or of the mask key are read off bit-vectors in `ByteBits`. The length loop of the decoder and the
  encoder of `Base64` work on machine words with shifts and masks; their specifications are arithmetic.
* `StompParser` carries two ghost histories, the bytes fed and the callbacks made. Its `Valid` says
  that its four fields and its callbacks are those of the reference automaton after those bytes.
* libcurl is nondeterministic: a send accepts some prefix, asks to try again or fails; a receive
  returns some bytes or fails; connecting succeeds or not. Random draws and time are free choices.
* In `Lifecycle` a thread is a program counter, one step is one atomic action, and a libcurl call in
  progress remembers the pointer it was given. A run is any sequence of steps of any number of
  threads that call `open`, `close` and `send` as often as they like. Thread 0 is the worker.
* Client events and frames of the broker are taken one at a time, as the mutex, the atomic flag and
  the broker's single reader make them.
* In `Match` a coroutine that waits is a pending task. An announcement or request is what its JSON
  text encodes. `Referee` is an independent description of a legal sequence of announcements.

Assumptions, which the code relies on too:

* Callbacks do not re-enter the parser, do not throw and do not call `open` or `close`.
* A received content-length is not 2^64-1, where `m_contentLength + 1` wraps to 0.
* A received WebSocket length is below 2^63 (section 5.2 of RFC 6455).
* WebSocket messages are unfragmented; the byte stream starts after the upgrade response.
* Sizes of texts in memory are below 2^64.

## What turned out to hold only in part

* `serialize` followed by parsing is the identity exactly for well-formed frames
  (`StompRoundTrip.FrameRoundTrip`, an if-and-only-if over all frames): the code escapes nothing.
* A pong echoes its ping exactly when the ping has at most 125 bytes (`WsFrames.PongRoundTrip`).
* The rebuilt URL parses to the same parts exactly when the authority has no `]`
  (`Url.EffectiveUrlReparses`); with one the default port is glued to the host
  (`Url.BracketsGlueThePort`).
* Subscription ids are distinct up to 2^64 subscribe calls, and the next one comes back
  (`ClientRuns.SameIdSameTurn`, `ClientRuns.IdComesBack`).
* Two threads are inside libcurl at once exactly when one is `open`, which configures and connects
  its handle without `m_curlMutex`, and the other a `send` that checked `m_connected` in an earlier
  session (`Lifecycle.CallsOverlapOnlyInOpen`); `Lifecycle.OverlapIsReached` builds such a run. It
  cannot happen while no `send` is unfinished as `open` runs (`Lifecycle.QuietOpenNoOverlap`). Both
  calls are on the live handle all the same.
* `tunnelWrite` reads `m_curl` afresh on each pass, so a write can go on after a close and an open. Its
  `true` means all bytes on one connection exactly when the handle was not replaced between its accepts
  (`TunnelWriting.TrueMeansOneWire`); `TunnelWriting.FrameCanSplit` is a run in which a frame is split.
* Frames of concurrent sends can mix, because the mutex is free between two partial accepts
  (`FrameOrders.FramesCanMix`). What a write has sent is in one piece on one connection exactly when no
  accept of another write and no new handle came between two of its accepts
  (`FrameOrders.OnePieceExactly`), and then the other end decodes the payloads and nothing else
  (`FrameOrders.WireDecodes`).
* A SEND comes back from this library's parser with any body, NUL bytes included, but the broker
  ignores content-length and strips white space: it reads the exact body if and only if that is UTF-8
  and its text has no NUL and no white space of any script at its right end (`BrokerSends.SendArrives`).
  It obeys text after a NUL as a second frame (`BrokerSends.HiddenFrame`).

Where code and documentation disagree the model follows the code. The server's docstring
(examples/server/stomp_server.py:7-13) gives the client a point when directions match, and the
repository's README gives the server a point for a blocked return; in the code a blocked return
continues the rally, and a point falls only when a side misses. That README also says neither player
repeats a direction. For the server this holds within a match (`Matches.DirectionsAlternate`). For the
client it is false: it forgets its last target at each SCORE. Two consecutive aims at one lane have a
SCORE between them (`Matches.ReturnsAlternate`), whenever it answers a ball the last lane is open to it
exactly when it has read a SCORE since (`Matches.AimsAgainAfterScore`), and `Matches.ClientCanRepeat` is
a run in which it repeats.

## Model

| member | source | states |
|---|---|---|
| Decimal.FromCharsOfPrint | src/StompParser.cpp:108-121 | reading a printed number back, whatever non-digit text follows, gives it exactly when it fits 64 bits |
| Decimal.PrintInjective | src/StompClient.cpp:110 | two numbers with the same decimal text are equal |
| Decimal.StoiOfPrintInt | src/CurlTransport.cpp:58 | `stoi` undoes `to_string` on every 32-bit int, negative ones included |
| Decimal.StoiReads | src/CurlTransport.cpp:58 | `stoi` reads a number behind white space and a sign, whatever non-digit text follows, when it fits 32 bits |
| StompFrames.StompFrame.constructor | src/StompFrame.cpp:12-15 | a new frame has its command, no header and no body |
| StompFrames.StompFrame.GetHeader | src/StompFrame.cpp:17-27 | the loop finds the first header with the key, or nothing |
| StompFrames.StompFrame.SetHeader | src/StompFrame.cpp:29-40 | the loop replaces the value of the first such header or appends one; nothing else changes |
| StompFrames.StompFrame.AddHeader | src/StompFrame.cpp:42-45 | appends, duplicates included |
| StompFrames.StompFrame.SetBody | src/StompFrame.cpp:52-55 | only the body changes |
| StompFrames.StompFrame.SetAll | src/StompClient.cpp:157-160 | the extra-header loop sets each header in turn |
| StompFrames.StompFrame.Serialize | src/StompFrame.cpp:57-78 | the appending loop writes the wire form whose inverse is the parser |
| StompFrames.AssignFirst | src/StompFrame.cpp:29-40 | last write wins for the key and no other key's first value changes |
| StompFrames.AssignKeys | src/StompFrame.cpp:29-40 | key order is kept and a new key goes last |
| StompFrames.AssignUnique | src/StompFrame.cpp:29-40 | a list with unique keys keeps them unique |
| StompFrames.AssignAllOther | src/StompClient.cpp:157-160 | extra headers leave every key they do not name as it was |
| StompFrames.AssignAllUnique | src/StompClient.cpp:157-160 | unique keys survive any number of `setHeader` calls |
| StompScanner.RunAppend | src/StompParser.cpp:30-179 | the reference reading of two pieces is the reading of their concatenation |
| StompScanner.RunProper | src/StompParser.cpp:30-179 | what is pending never contains a complete unit, after any input |
| StompScanner.RunPending | src/StompParser.cpp:57-61 | re-reading the kept bytes from the start of the unit reproduces the state without an event |
| StompScanner.CommandDone | src/StompParser.cpp:57-72 | a line with its LF is the command, less one trailing CR |
| StompScanner.HeaderDone | src/StompParser.cpp:80-100 | a header line is added, dropped without a colon, or ends the headers |
| StompScanner.CountedDone | src/StompParser.cpp:136-147 | a counted body is exactly its bytes, and the byte after it is consumed only if it is NUL |
| StompScanner.TerminatedDone | src/StompParser.cpp:160-168 | a body without a length ends at its first NUL |
| StompParsing.RestIsFaithful | src/StompParser.cpp:30-179 | the four fields determine the state of the automaton, and nothing complete is withheld |
| StompParsing.FedAllFromRest | src/StompParser.cpp:19-28 | successive feeds equal the one-shot reading of all bytes, in fields and trace |
| StompParsing.ChunkIndependence | src/StompParser.cpp:11-179 | from every reachable state, any two ways of cutting the same bytes give the same trace and the same final fields, those of a single feed |
| StompParsing.StompParser.constructor | src/StompParser.cpp:11-17 | a new parser is in the start state with empty histories |
| StompParsing.StompParser.Reset | src/StompParser.cpp:11-17 | back to the start state whatever came before, so later results depend only on later bytes |
| StompParsing.StompParser.Feed | src/StompParser.cpp:19-28 | keeps the refinement to the automaton, reports exactly its events for these bytes, and leaves no complete unit in the buffer |
| StompParsing.StompParser.ProcessBuffer | src/StompParser.cpp:30-179 | the loop terminates, also over the pass that consumes no byte, and ends in the automaton's state with maximal progress |
| StompParsing.StompParser.AwaitCommand | src/StompParser.cpp:34-73 | the command block preserves what the automaton makes of the buffer, up to the heartbeats it reports |
| StompParsing.StompParser.TakeCommandLine | src/StompParser.cpp:57-72 | a command line is taken or the LF is missing |
| StompParsing.StompParser.SkipLineEnds | src/StompParser.cpp:36-45 | one heartbeat per leading LF, none per CR, up to the first other byte |
| StompParsing.StompParser.AwaitHeaders | src/StompParser.cpp:75-126 | header lines are taken up to the blank one and the first content-length picks the kind of body |
| StompParsing.StompParser.TakeHeaderLines | src/StompParser.cpp:77-106 | the inner loop ends at the blank line or lacks an LF |
| StompParsing.StompParser.TakeHeaderLine | src/StompParser.cpp:86-100 | one line is cut off, stripped of one CR and added |
| StompParsing.StompParser.AwaitBody | src/StompParser.cpp:128-177 | the body block waits without a change or delivers and starts over |
| StompParsing.StompParser.TakeCountedBody | src/StompParser.cpp:136-152 | delivers exactly the counted bytes |
| StompParsing.StompParser.TakeTerminatedBody | src/StompParser.cpp:160-173 | delivers the bytes before the NUL |
| StompParsing.StompParser.StartOver | src/StompParser.cpp:154-156 | state, frame and length get their initial values |
| StompParsing.StompParser.ParseHeaderLine | src/StompParser.cpp:181-193 | splits at the first colon, or fails and changes nothing |
| StompRoundTrip.EventsDelivered | src/StompParser.cpp:30-193 | what every delivered frame looks like, whatever bytes were fed |
| StompRoundTrip.HeadRead | src/StompParser.cpp:57-106 | command and headers of a serialized frame are read in order, duplicates kept |
| StompRoundTrip.FrameThen | src/StompFrame.cpp:57-78 | a well-formed frame is read back whole and what follows it is read afresh |
| StompRoundTrip.FrameRoundTrip | src/StompFrame.cpp:57-78 | for every frame: parsing its serialization gives exactly that frame if and only if it is well-formed |
| StompRoundTrip.GapRead | src/StompParser.cpp:36-45 | a run of CR and LF gives one heartbeat per LF |
| StompRoundTrip.StreamRoundTrip | src/StompParser.cpp:30-193 | any sequence of well-formed frames and gaps comes back in order and leaves nothing pending |
| StompRoundTrip.LineFeedCutsValue | src/StompParser.cpp:80-100 | a header value with an LF is cut there, and the rest is a line of its own that is dropped without a colon |
| StompRoundTrip.TwoLineDestination | src/StompFrame.cpp:65-71 | a frame that fails to come back: a destination of two lines |
| StompRoundTrip.CarriageReturnGoes | src/StompParser.cpp:63-67 | a line loses exactly the CR before its LF, and a line without a CR nothing |
| StompRoundTrip.CrlfHeadRead | src/StompParser.cpp:57-100 | command and headers whose lines end in CR LF are read as written, and the blank line CR LF ends them |
| StompRoundTrip.CrlfFrameThen | src/StompParser.cpp:57-168 | such a frame is read whole and what follows it is read afresh |
| StompRoundTrip.CrlfRoundTrip | src/StompParser.cpp:57-168 | for every frame written with CR LF: parsing gives exactly that frame if and only if its texts hold no line end or colon where one is read and its body is clean |
| StompRoundTrip.CrlfMessage | src/StompParser.cpp:63-97 | the shortest such frame is delivered |
| StompRoundTrip.FirstLengthCounts | src/StompParser.cpp:104-124 | the first content-length decides, and one of more than 64 bits counts as none |
| StompRoundTrip.NoNumberNoLength | src/StompParser.cpp:108-121 | so does one that does not begin with a digit |
| ByteBits.BitMeaning | src/CurlTransport.cpp:577-582 | opcode, mask bit and 7-bit length are those bit operations |
| ByteBits.LengthByteMeaning | src/CurlTransport.cpp:633 | the byte of a pong's length is 0x80 or the low byte of the length, so the length modulo 128 |
| ByteBits.ShiftOr | src/CurlTransport.cpp:588-597 | `<< 8` and bit-or append a byte at the low end of a 64-bit length below 2^56 |
| ByteBits.XorTwice | src/CurlTransport.cpp:493-496 | masking a byte twice gives it back |
| ByteBits.XorExact | src/CurlTransport.cpp:495 | a bit of a masked byte is set exactly when one of the two bits is |
| ByteBits.BitsTell | src/CurlTransport.cpp:495 | two bytes with the same eight bits are one |
| WsFrames.NumberOfBigEndian | src/CurlTransport.cpp:594-598 | reading the big-endian bytes of a number that fits gives the number |
| WsFrames.LengthPass | src/CurlTransport.cpp:595-598 | a pass of the length loop keeps the 64-bit word equal to the number of the bytes read |
| WsFrames.ShiftIn | src/CurlTransport.cpp:588-598 | the loop of shifts and bit-ors on a 64-bit word gives the number that up to eight bytes denote |
| WsFrames.MaskedTwice | src/CurlTransport.cpp:606-613 | unmasking undoes masking, for every payload and mask |
| WsFrames.FramesAreMasked | src/CurlTransport.cpp:486-496 | in every frame the client builds the mask key lies before the payload, and each payload bit is the exclusive or of its own and the key's |
| WsFrames.FramesAreFinal | src/CurlTransport.cpp:460-476 | every frame the client builds starts with the final bit, no reserved bit and its opcode, and has the mask bit (section 5.2 of RFC 6455) |
| WsFrames.CloseRoundTrip | src/CurlTransport.cpp:313-347 | the close frame is one close frame for its decoder, with status code 1000 |
| WsFrames.DecodeStable | src/CurlTransport.cpp:575-614 | more bytes behind a complete frame change nothing about it |
| WsFrames.LeftoverIsStrictPrefix | src/CurlTransport.cpp:575-603 | a buffer the decoder cannot read yet can be completed to exactly one frame |
| WsFrames.TextFrameRoundTrip | src/CurlTransport.cpp:462-498 | for every payload and mask, decoding the frame of `send` gives the payload and consumes exactly those bytes |
| WsFrames.TextFrameShortest | src/CurlTransport.cpp:466-484 | no masked frame that decodes to the same payload is shorter (section 5.2 of RFC 6455) |
| WsFrames.PongRoundTrip | src/CurlTransport.cpp:630-645 | a pong decodes to the payload of its ping if and only if that has at most 125 bytes |
| WsFrames.PongOf126 | src/CurlTransport.cpp:632-633 | the shortest ping that is not echoed |
| WsFrames.ServerFrameRead | src/CurlTransport.cpp:577-605 | an unmasked text frame, in each of the three length forms, decodes to its payload |
| WsReceiver.DrainAppend | src/CurlTransport.cpp:573-648 | decoding in two pieces equals decoding the whole |
| WsReceiver.DrainLeftover | src/CurlTransport.cpp:573-648 | what is kept is undecodable, and nothing follows a close |
| WsReceiver.ReceiveAllIsDrain | src/CurlTransport.cpp:736-737 | any sequence of reads equals one decode of all the bytes |
| WsReceiver.ChunkIndependence | src/CurlTransport.cpp:573-648 | deliveries, pings, close and leftover do not depend on how the stream is cut; nothing follows a close; before one the leftover is a strict prefix of one frame |
| WsReceiver.PongsDecode | src/CurlTransport.cpp:628-646 | each reply, unmasked, is the payload of its ping |
| WsReceiver.AppendMasked | src/CurlTransport.cpp:491-496 | the loop appends the payload masked with the key |
| WsReceiver.BuildTextFrame | src/CurlTransport.cpp:462-496 | the three length branches build the text frame |
| WsReceiver.ShiftOut | src/CurlTransport.cpp:480-483 | the shifting loop writes the eight length bytes, most significant first |
| WsReceiver.BuildClose | src/CurlTransport.cpp:337-344 | builds the close frame with the mask |
| WsReceiver.BuildPong | src/CurlTransport.cpp:630-644 | builds a pong for the payload with some mask |
| WsReceiver.Unmask | src/CurlTransport.cpp:606-613 | the in-place loop unmasks every byte |
| WsReceiver.FramedReceiver.constructor | src/CurlTransport.cpp:660-665 | the worker starts with an empty buffer and no events |
| WsReceiver.FramedReceiver.OnReceived | src/CurlTransport.cpp:736-737 | one read leaves the session the reference decoder has after those bytes |
| WsReceiver.FramedReceiver.DispatchFramedBuffer | src/CurlTransport.cpp:573-648 | the loop decodes the whole buffer frame by frame, in order, and stops at a close |
| WsReceiver.FramedReceiver.Act | src/CurlTransport.cpp:614-646 | text and binary are delivered, a ping is answered, a close stops, all else is ignored |
| WsReceiver.FramedReceiver.Split | src/CurlTransport.cpp:602-613 | finds a complete frame exactly when the reference decoder does |
| WsReceiver.FramedReceiver.SplitHeader | src/CurlTransport.cpp:577-602 | reads the three length forms |
| FullStack.ReceivePath.constructor | src/StompClient.cpp:11-18 | both buffers start empty |
| FullStack.ReceivePath.OnReceived | src/StompClient.cpp:16-18 | a read feeds the parser exactly the payloads it completes, in order |
| FullStack.FeedPayloads | src/CurlTransport.cpp:616-622 | one feed per payload adds up to feeding their concatenation |
| FullStack.SentBytesDrained | src/CurlTransport.cpp:462-498 | consecutive sends decode to their payloads, in order, with nothing left |
| FullStack.FullStackRoundTrip | src/CurlTransport.cpp:573-648 | well-formed frames, serialized, wrapped with any masks and cut into any reads, come out in order, and both buffers end empty |
| FullStack.ReceivePathRoundTrip | src/CurlTransport.cpp:736-737 | the same on the objects: the parser has reported exactly the frames sent |
| TunnelWriting.StepConserves | src/CurlTransport.cpp:418-441 | each action of any writer, a teardown and a re-open included, keeps conservation |
| TunnelWriting.WriteConservation | src/CurlTransport.cpp:413-443 | in every interleaving, over all connections, the bytes of a writer on the wires are exactly the prefix it sent, in order; no byte is nobody's; true means all bytes are there |
| TunnelWriting.HoldsIsSent | src/CurlTransport.cpp:423-428 | a connection carries bytes of a writer exactly when one of its accepts went to that handle |
| TunnelWriting.TrueMeansOneWire | src/CurlTransport.cpp:413-443 | the bytes of a write that returned true are all on one connection if and only if the handle was not replaced between its accepts |
| TunnelWriting.FailedExactly | src/CurlTransport.cpp:418-443 | in every interleaving, a write has failed if and only if libcurl reported an error to it or it found m_curl null, and returned true if and only if its loop ended |
| TunnelWriting.FrameCanSplit | src/CurlTransport.cpp:423-442 | a run in which each of two connections gets half a frame and the write succeeds |
| TunnelWriting.WholeAcceptsAreContiguous | src/CurlTransport.cpp:413-443 | when each accept takes the full remainder every wire is whole frames one after the other, and no frame is on two |
| FrameOrders.OnePieceExactly | src/CurlTransport.cpp:418-441 | in every interleaving, what a writer has sent is in one piece on one connection if and only if no accept of another writer and no new handle came between two of its accepts |
| FrameOrders.FramesCanMix | src/CurlTransport.cpp:418-441 | a run on one handle in which two writes return true and neither frame is in one piece |
| FrameOrders.WholeBlocks | src/CurlTransport.cpp:413-443 | a wire on which every writer has all its bytes in one place is their frames one after the other, each once |
| FrameOrders.BlocksDecode | src/CurlTransport.cpp:462-498 | frames one after the other decode to their payloads in that order, with nothing left |
| FrameOrders.WireDecodes | src/CurlTransport.cpp:413-498 | a connection whose writes all returned true uninterrupted decodes to exactly their payloads, each once, with nothing left |
| TunnelWriting.Tunnel.TunnelWrite | src/CurlTransport.cpp:413-443 | the loop, among others' actions, is a run of that machine; it sends what libcurl takes, and returns false exactly in the first turn with an error or a null m_curl, so being told to try again never ends it |
| TunnelWriting.Tunnel.Ask | src/CurlTransport.cpp:418-440 | one pass: the answer of libcurl decides what the writer does |
| Lifecycle.WriteStepSafe | src/CurlTransport.cpp:413-500 | a step of `send`, of a frame written for close, pong or upgrade, or of `waitReadable` respects mutexes, handle and session |
| Lifecycle.CloseStepSafe | src/CurlTransport.cpp:349-389 | so does a step of `closeLocked`, from `close` or from `open` |
| Lifecycle.OpenStepSafe | src/CurlTransport.cpp:236-311 | so does a step of `open`, failures included |
| Lifecycle.WorkerStepSafe | src/CurlTransport.cpp:660-747 | so does a step of the worker, a `send` made by its data or error callback included |
| Lifecycle.StepKeepsInv | src/CurlTransport.cpp:236-389 | every step of every thread keeps the invariant |
| Lifecycle.RunKeepsInv | src/CurlTransport.cpp:236-747 | the invariant holds in every state of every interleaved run |
| Lifecycle.HandleSafety | src/CurlTransport.cpp:391-443 | each libcurl call in progress works on a live, non-null handle that is still `m_curl` |
| Lifecycle.NoFreeInUse | src/CurlTransport.cpp:298-304 | a cleanup frees `m_curl` itself and no other thread is inside libcurl then |
| Lifecycle.CallsOverlapOnlyInOpen | src/CurlTransport.cpp:270-272 | in every state of every run, two calls overlap if and only if one is `open` configuring or connecting and the other a `send`; both are on `m_curl` |
| Lifecycle.QuietOpenNoOverlap | src/CurlTransport.cpp:236-296 | without an unfinished `send` while `open` runs, calls never overlap |
| Lifecycle.OverlapIsReached | src/CurlTransport.cpp:445-498 | a run from the start in which curl_easy_perform and curl_easy_send work on one handle at once |
| Lifecycle.CloseDiscipline | src/CurlTransport.cpp:360-389 | when `closeLocked` finishes the worker has ended, both flags are false, the handle is null and nothing leaked, and `onClose` has fired once per successful open |
| Lifecycle.SessionDiscipline | src/CurlTransport.cpp:292-295 | at every moment at most one session lacks its `onClose` and at most one close frame was attempted in the session |
| Lifecycle.OneWorker | src/CurlTransport.cpp:294 | a worker is started only into an empty slot |
| Lifecycle.NoSendOutsideSession | src/CurlTransport.cpp:445-450 | callbacks made by `open` before it sets its flags, or by the ending worker, find `m_connected` false |
| Lifecycle.SomeoneUnblocked | src/CurlTransport.cpp:360-389 | in every reachable state with unfinished work some thread waits for nothing |
| Lifecycle.DeadlockFreedom | src/CurlTransport.cpp:236-389 | in every state of every run with an unfinished call or worker some unfinished thread can step |
| LifecyclePaths.CloseSendsItsFrame | src/CurlTransport.cpp:360-371 | over every run, a thread behind the exchange of m_connected has drawn up a close frame and given it to curl_easy_send if and only if it found a session; it waits at most 20 times |
| LifecyclePaths.CloseFramesCounted | src/CurlTransport.cpp:362-364 | over every run, as many close frames are begun as exchanges found m_connected true, and a session's attempts are those begun in it |
| LifecyclePaths.WaitsForPeer | src/CurlTransport.cpp:366-370 | in every reachable state, the wait for the peer ends only when m_running is false or after 20 rounds |
| LifecyclePaths.CloseFrameIsReached | src/CurlTransport.cpp:360-364 | a run from the start in which `close` is inside curl_easy_send with its close frame |
| LifecyclePaths.OpenShakesHands | src/CurlTransport.cpp:272-294 | over every run, an `open` that sets its flags has performed, given the upgrade request to libcurl and read an answer |
| LifecyclePaths.SendsOnlyWhenUp | src/CurlTransport.cpp:445-450 | over every run, a `send` from any thread or callback writes only after it found m_connected true |
| LifecyclePaths.FailureIsReported | src/CurlTransport.cpp:727-747 | over every run, a worker that ends on a failed receive while m_running was true has called the error callback |
| LifecyclePaths.PongIsReached | src/CurlTransport.cpp:628-646 | a run from the start in which the worker is inside curl_easy_send with a pong |
| LifecyclePaths.ErrorIsReached | src/CurlTransport.cpp:727-733 | a run from the start in which the worker calls the error callback |
| LifecyclePaths.PeerCloseIsReached | src/CurlTransport.cpp:623-627 | a run from the start in which the peer's close frame stops the loop |
| LifecyclePaths.CallbackSendIsReached | src/CurlTransport.cpp:616-622 | a run from the start in which the data callback is inside curl_easy_send |
| StompClients.BuildConnectFrame | src/StompClient.cpp:63-83 | the CONNECT frame with its optional credentials, heart-beat and extra headers |
| StompClients.StompClient.constructor | src/StompClient.cpp:11-39 | a new client is not connected, has no subscription and counts from 1 |
| StompClients.StompClient.Connect | src/StompClient.cpp:46-87 | resets parser and flag, and sends exactly the CONNECT frame when the transport opened |
| StompClients.StompClient.Disconnect | src/StompClient.cpp:89-103 | sends DISCONNECT only in a live session, drops the flag without a notification and closes the transport |
| StompClients.StompClient.Subscribe | src/StompClient.cpp:105-129 | returns the next id, registers the handler under it and tells the broker when online |
| StompClients.StompClient.Unsubscribe | src/StompClient.cpp:131-144 | removes exactly that id and tells the broker when online |
| StompClients.StompClient.Send | src/StompClient.cpp:146-164 | hands over exactly the SEND frame, or nothing when offline |
| StompClients.StompClient.SendHeartbeat | src/StompClient.cpp:166-174 | one LF when online |
| StompClients.StompClient.OnData | src/StompClient.cpp:16-31 | state and callbacks after some bytes are those of the parser's events in order |
| StompClients.StompClient.HandleEvents | src/StompClient.cpp:19-39 | the parser's callbacks, one after the other, are the events in order |
| StompClients.StompClient.HandleEvent | src/StompClient.cpp:29-38 | a heartbeat or a frame is passed on |
| StompClients.StompClient.HandleIncomingFrame | src/StompClient.cpp:176-219 | CONNECTED raises the flag, MESSAGE runs the handler of its subscription if any, ERROR is reported, others are ignored |
| StompClients.StompClient.HandleTransportClosed | src/StompClient.cpp:221-228 | notifies exactly when the session was up |
| StompClients.StompClient.HandleTransportError | src/StompClient.cpp:230-237 | always notifies |
| StompClients.SendIsExact | src/StompClient.cpp:153-163 | for every body, NUL bytes included, what `send` emits parses back to that exact body and frame |
| StompClients.SendLength | src/StompClient.cpp:155-160 | the content-length is read back as the body's length despite extra headers |
| StompClients.ExtrasAreSent | src/StompClient.cpp:76-79 | every frame that takes extra headers carries each key with the value given last, and the client's own value for a key not given |
| ClientRuns.CounterIsCount | src/StompClient.cpp:107-112 | the counter is the number of subscribes plus one, modulo 2^64 |
| ClientRuns.SameIdSameTurn | src/StompClient.cpp:107-112 | two subscribes got the same id if and only if the numbers of subscribes before them agree modulo 2^64 |
| ClientRuns.IdsDistinct | src/StompClient.cpp:107-112 | up to 2^64 subscribe calls never reuse an id |
| ClientRuns.IdComesBack | src/StompClient.cpp:107-112 | after 2^64 of them the first id comes back |
| ClientRuns.TableIsLive | src/StompClient.cpp:105-136 | the table holds exactly the ids given out and not given up since |
| ClientRuns.Dispatch | src/StompClient.cpp:188-210 | a MESSAGE runs a handler if and only if its first `subscription` header is an id given to that handler and not given up; it runs nothing else |
| ClientRuns.OnlyMessagesRunHandlers | src/StompClient.cpp:176-219 | no other event runs a handler, and the handler gets that frame's fields |
| ClientRuns.ReportsExact | src/StompClient.cpp:29-38 | over every run, each ERROR frame, CONNECTED frame and heartbeat is reported once, in order, and nothing else is |
| ClientRuns.MessageIsFrame | src/StompClient.cpp:190-195 | the handler gets the values of the first destination, subscription and message-id headers, the headers and the body |
| ClientRuns.ConnectedIsLatest | src/StompClient.cpp:53-60 | `isConnected` holds exactly when the latest of connect, disconnect, transport error, transport close and CONNECTED is CONNECTED |
| ClientRuns.NotificationsConserved | src/StompClient.cpp:221-237 | notifications are the transport errors plus the closes that found the session up |
| ClientRuns.NoSecondNotification | src/StompClient.cpp:221-237 | after an error, a local disconnect or a close, a later close adds none unless CONNECTED came between |
| Brokers.PingPongStompHandler.constructor | examples/server/stomp_server.py:38-49 | a new handler has no subscription and no session |
| Brokers.PingPongStompHandler.HandleRawData | examples/server/stomp_server.py:51-57 | the loop acts on every non-blank part between NULs, in order |
| Brokers.PingPongStompHandler.Process | examples/server/stomp_server.py:59-85 | one frame changes table, session and inbox as its command says |
| Brokers.PingPongStompHandler.ReadHeaders | examples/server/stomp_server.py:62-75 | the loop reads headers up to the blank line and joins the rest as body |
| Brokers.PingPongStompHandler.BroadcastMessage | examples/server/stomp_server.py:264-283 | one message for each matching subscription in table order; a send that raises ends the session but not the loop |
| Brokers.PingPongStompHandler.SendMessage | examples/server/stomp_server.py:268-283 | the MESSAGE text with its id, length and payload is sent or the session ends |
| Brokers.StripExact | examples/server/stomp_server.py:53-55 | `strip` takes white space off both ends, all of it and nothing else |
| BrokerSends.BrokerReadsFrame | examples/server/stomp_server.py:51-75 | what the broker reads of any frame: its headers, the body up to the first NUL less the white space at its right end, and the rest as further frames |
| BrokerSends.FrameArrives | examples/server/stomp_server.py:51-75 | a frame is read as one frame with its exact body if and only if the body has no NUL and nothing to strip at its right end |
| BrokerSends.HeardFrame | examples/server/stomp_server.py:303-306 | a text frame with any bytes as its body is heard exactly when they are UTF-8, and then with the text they encode |
| BrokerSends.TextArrives | src/StompClient.cpp:153-163 | `send` with the bytes of a text is read as one SEND with that text if and only if it has no NUL and no white space at its right end |
| BrokerSends.SendArrives | src/StompClient.cpp:153-163 | for any bytes: the broker reads exactly the body if and only if it is UTF-8 and its text has no NUL and no white space of any script at its right end |
| BrokerSends.SendEffect | examples/server/stomp_server.py:114-116 | then the game gets exactly that destination and that text |
| BrokerSends.SpaceIsLost | examples/server/stomp_server.py:51-55 | a body that does not arrive: a letter and U+3000 |
| BrokerSends.LetterArrives | examples/server/stomp_server.py:51-55 | a body that does: U+00E0, whose last byte would be white space as a character |
| BrokerSends.NoTextNotHeard | examples/server/stomp_server.py:303-306 | a body that is no text: the byte FF |
| BrokerSends.HiddenFrame | examples/server/stomp_server.py:51-57 | a body whose text after a NUL disconnects the player |
| Unicode.RoundTrip | examples/server/stomp_server.py:303-306 | decoding the UTF-8 of a text gives the text |
| Unicode.EncodingIsTheOnly | examples/server/stomp_server.py:303-306 | bytes that decode to a text are its encoding |
| Unicode.EachLength | examples/server/stomp_server.py:303-306 | the bytes of one character of each of the four lengths (section 3 of RFC 3629) |
| TextFrames.Utf8Wire | src/StompFrame.cpp:57-78 | the bytes of a serialized frame of texts are the serialization of the frame of their bytes |
| TextFrames.Utf8AssignAll | src/StompFrame.cpp:29-40 | setting headers and encoding them commute, because no two keys have the same bytes |
| Handshakes.ConnectAnswered | examples/server/stomp_server.py:87-99 | the broker reads the CONNECT of any configuration as one frame, raises its flag and answers once |
| Handshakes.ConnectIsRead | src/StompClient.cpp:62-79 | the broker's dictionary holds the accept-version, host and heart-beat of the configuration, and a login and a passcode if and only if they are given |
| Handshakes.DisconnectArrives | src/StompClient.cpp:93-95 | the DISCONNECT of the client ends the session for the broker and does nothing else |
| Handshakes.OtherCommands | examples/server/stomp_server.py:77-86 | STOMP is CONNECT by another name, and an unknown command does nothing |
| Handshakes.NoIdIsZero | examples/server/stomp_server.py:101-104 | a SUBSCRIBE without an id counts as id 0 |
| Handshakes.AnswerRead | src/StompClient.cpp:180-187 | the client reads the answer as one CONNECTED frame and is connected |
| Handshakes.ConnectedWorldReached | src/StompClient.cpp:46-87 | from a new client and a new broker, CONNECT and its answer lead to the world in which the runs below start |
| PubSub.BrokerReads | examples/server/stomp_server.py:59-73 | the broker reads a frame without a body exactly as its header list says |
| PubSub.SubscribeEffect | examples/server/stomp_server.py:101-108 | the text of a SUBSCRIBE sets exactly that id to that destination in the broker's table |
| PubSub.UnsubscribeEffect | examples/server/stomp_server.py:110-112 | the text of an UNSUBSCRIBE removes exactly that id |
| PubSub.SubscribeArrives | src/StompClient.cpp:114-126 | so do the bytes the client sends for a destination and extra headers in any script |
| PubSub.UnsubscribeArrives | src/StompClient.cpp:138-143 | and the bytes of its unsubscribe |
| PubSub.TablesAgree | src/StompClient.cpp:105-144 | after any run of both, the broker's table holds exactly the client's live ids, once each, with their destinations |
| PubSub.DelayChangesNothing | examples/server/stomp_server.py:303-306 | with any delay between client and broker, once all frames are read the world is the one without delay |
| PubSub.MatchingExact | examples/server/stomp_server.py:267-268 | a broadcast goes to exactly the ids whose destination matches |
| PubSub.MatchingDistinct | examples/server/stomp_server.py:267-268 | and to each once |
| PubSub.MessageBytes | examples/server/stomp_server.py:269-278 | the bytes of the broker's text of a message are a MESSAGE whose content-length counts bytes |
| PubSub.MessageIsWellFormed | examples/server/stomp_server.py:269-278 | every message of a broadcast is a well-formed frame, whatever the payload |
| PubSub.BroadcastIsWires | examples/server/stomp_server.py:264-283 | the bytes of what a broadcast without a failing send writes are the serialization of those messages |
| PubSub.BroadcastTargets | examples/server/stomp_server.py:264-268 | after any run the broadcast's ids are exactly the live ids of the destination, distinct |
| PubSub.BroadcastRuns | src/StompClient.cpp:188-210 | through the client's parser each message runs its own handler with the payload as body |
| PubSub.PublishSubscribe | src/StompClient.cpp:188-210 | end to end: after any run, a delivered broadcast runs exactly the live handlers of its destination, once each, with the payload bytes |
| Downlinks.DrainOneMore | src/CurlTransport.cpp:573-648 | a further complete frame on the wire adds exactly its meaning |
| Downlinks.SeenIsPrefix | src/CurlTransport.cpp:736-737 | what the client has read is the first messages, complete and in order, and all of them when nothing is on the way |
| Downlinks.ReadHandles | src/StompClient.cpp:188-210 | one read completes the next messages and runs the handler of each whose id is live now |
| Downlinks.LiveWhenRead | src/StompClient.cpp:188-210 | after any run with frames in flight both ways, a read of any size runs, for each message it completes, the handler of its id exactly when that id is live then; every message is read once, in order |
| Downlinks.SilentAfterFailure | examples/server/stomp_server.py:264-283 | after a broadcast in which a send raised, no run publishes anything more |
| Downlinks.ServerCarries | src/CurlTransport.cpp:577-605 | the server's unmasked framing carries every message |
| Base64.Base64Encode | src/CurlTransport.cpp:73-90 | the loop writes 4*ceil(n/3) characters that decode to the input |
| Base64.TblIsAlphabet | src/CurlTransport.cpp:75 | the table is the alphabet of section 4 of RFC 4648 |
| Base64.PackedIsSum | src/CurlTransport.cpp:80-82 | the 32-bit word the code shifts and ors together is the 24-bit number of the three bytes |
| Base64.Pack | src/CurlTransport.cpp:80-82 | the code builds that word, with zero bits for what is missing |
| Base64.FirstShift | src/CurlTransport.cpp:84 | `>> 18` and the mask give the first six-bit piece |
| Base64.SecondShift | src/CurlTransport.cpp:85 | `>> 12` and the mask give the second, of two bytes |
| Base64.ThirdShift | src/CurlTransport.cpp:86 | `>> 6` and the mask give the third, of two bytes |
| Base64.LastMask | src/CurlTransport.cpp:87 | the mask alone gives the last |
| Base64.ShiftsCut | src/CurlTransport.cpp:80-87 | those pieces are the quotients and remainders of the number |
| Base64.RoundTrip | src/CurlTransport.cpp:73-90 | decoding undoes encoding, for every byte string |
| Base64.EncodeIsTheOnly | src/CurlTransport.cpp:73-90 | a text that decodes strictly to some bytes is their encoding |
| Url.Accepted | src/CurlTransport.cpp:27-71 | an accepted URL has a host without slash, an absolute path, a 32-bit port, and keeps a `]` in the host |
| Url.PlainHost | src/CurlTransport.cpp:31-68 | wss and https are secure with default port 443, ws and http are not and have 80; a missing path is "/" |
| Url.HostAndPort | src/CurlTransport.cpp:46-63 | a port behind the host is read |
| Url.OtherSchemeRefused | src/CurlTransport.cpp:31-45 | an accepted URL starts with one of the four schemes and has its secure flag |
| Url.Reparse | src/CurlTransport.cpp:255-256 | the effective URL splits again into scheme, authority and path |
| Url.EffectiveIsHttp | src/CurlTransport.cpp:255-256 | the effective URL names https or http as the secure flag says, then host, port and path |
| Url.EffectiveUrlReparses | src/CurlTransport.cpp:27-71 | for every accepted URL, the rebuilt one gives the same host, port, path and secure flag if and only if the authority has no `]` |
| Url.BracketsGlueThePort | src/CurlTransport.cpp:52-68 | with a `]` re-parsing puts the default port into the host |
| Url.LoopbackDoesNotComeBack | src/CurlTransport.cpp:52-68 | the URL of the IPv6 loopback address is one that fails |
| Matches.PingPongMatch.BroadcastMessage | examples/server/stomp_server.py:264-283 | to one subscriber: delivered, dropped after the session, or ending the session |
| Matches.PingPongMatch.Play | examples/server/stomp_server.py:239-256 | a direction other than the last is picked from the open ones, kept and announced |
| Matches.PingPongMatch.ServeBall | examples/server/stomp_server.py:233-237 | a serve starts the next round |
| Matches.PingPongMatch.GoOn | examples/server/stomp_server.py:212-231 | a waiting coroutine goes on; only the two delays look at the session first |
| Matches.PingPongMatch.HandleSend | examples/server/stomp_server.py:156-210 | a pong continues the rally or makes a point for the right side |
| Matches.PingPongMatch.AnnouncePoint | examples/server/stomp_server.py:183-210 | at 11 the match is announced as finished, before that the score, then a serve follows |
| Matches.PingPongMatch.HandleRematch | examples/server/stomp_server.py:116-141 | an accepted rematch resets the match and starts its task, a declined one says goodbye |
| Matches.PingPongMatch.HandleDisconnect | examples/server/stomp_server.py:258-262 | the session ends and the game task is cancelled |
| Matches.StepKeeps | examples/server/stomp_server.py:114-256 | every move of server, client or network keeps the invariant of the match |
| Scoring.ScoresAreEarned | examples/server/stomp_server.py:156-176 | over every run, serverScore is the misses read in this match, clientScore the returned balls not reached, rallyHits the balls reached since the serve, and the server stands where the last of them went |
| Scoring.ReachedGoesOn | examples/server/stomp_server.py:160-167 | in every state of every run, a ball the server reaches adds one hit and one return and scores and announces nothing; one it does not reach is a point for the client |
| Scoring.SilentAfterDisconnect | examples/server/stomp_server.py:258-262 | over every run, nothing is announced after the server has read a DISCONNECT |
| Scoring.ClientStands | examples/main.cpp:104-166 | over every run the client stands in the lane of the last ball it read, in the middle after a SCORE |
| Scoring.RequestsInOrder | examples/main.cpp:104-153 | the client answers each ball, with a miss exactly when it did not reach it, passes on the rematch answer, and the server reads the requests in order |
| Matches.OneToken | examples/server/stomp_server.py:114-256 | while connected exactly one token exists: a task, a ball, a return, or the end of the match |
| Matches.RoundIsScore | examples/server/stomp_server.py:156-237 | the round is the score sum plus one exactly while a ball or rally is live, and at most 21 |
| Matches.OverMeansWon | examples/server/stomp_server.py:183-198 | a match is over with exactly one side at 11 and played on only with both below |
| Matches.PlayedByTheRules | examples/server/stomp_server.py:212-256 | everything the client is told is a sequence of matches the referee accepts |
| Matches.DirectionsAlternate | examples/server/stomp_server.py:240-242 | no ball of a match is announced in the direction of the ball before it |
| Matches.LanesExact | examples/server/stomp_server.py:241 | a player may choose every lane but its last one |
| Matches.OpenLanes | examples/main.cpp:137-145 | the loop collects exactly the lanes left to choose from |
| Matches.Player.constructor | examples/main.cpp:79-81 | the player stands in the middle and has no last target |
| Matches.Player.OnPing | examples/main.cpp:104-153 | one pong for each ball: a miss, or a return to a lane other than the last |
| Matches.Player.OnScore | examples/main.cpp:155-166 | the player returns to the middle and forgets its last target |
| Matches.ReturnsAlternate | examples/main.cpp:137-148 | over every run, two consecutive aims at the same lane have a SCORE between them |
| Matches.AimsAgainAfterScore | examples/main.cpp:137-166 | in every state of every run the client can aim at a lane if and only if that was not its last aim or it has read a SCORE since |
| Matches.ClientCanRepeat | examples/main.cpp:155-166 | a run in which the client aims twice in a row at the same lane |
| Matches.ResultsAreSound | examples/server/stomp_server.py:183-198 | an announced winner has 11, the other side less, it made the last point, and the rounds are the points, 21 at most |

## Left out

- libcurl itself, TLS, proxy and certificate options, `applyCurlOptions`, DNS and timeouts: foreign calls, modelled as free choices where they meet the code.
- The native WebSocket branch: libcurl does the framing, so there is nothing to prove about it here.
- `performWsHandshake` beyond its locks: the response check is a substring test; the byte stream is modelled from after it.
- `m_cancelRequested`: it only makes `curl_easy_perform` fail early, and that call already fails or succeeds freely.
- The branch of `closeLocked` that detaches its own thread: only a callback that calls `close` can reach it.
- Liveness of the retry after CURLE_AGAIN and of the waits of 10 ms and 5 ms: they need fairness and time.
- STOMP 1.2 "Value Encoding" escapes, transactions, ACK and NACK, receipts and heartbeat timers: the library does not implement them.
- Fragmented WebSocket messages (section 5.4 of RFC 6455): the decoder drops continuation frames, as the model does, and nothing is claimed about reassembly.
- Unset callbacks: every callback of parser, client and transport is taken to be set.
- Exceptions from allocation, and callbacks that throw or re-enter the parser.
- JSON texts, logging, console output and `reach_probability`: outcomes of random draws are free, both are possible at every distance.
- Runs with a subscribe whose destination or extra headers are not UTF-8: the broker's library ends the connection there. Binary frames, which the broker decodes with replacement characters: the client sends text frames.
- The broker handler is one object in the source; its frame handling is `Brokers.PingPongStompHandler`, its game `Matches.PingPongMatch`, joined by the inbox of SENDs.
- StompParsing.StompParser.AwaitBody: does not model the wrap of the content-length plus one at 2^64-1, where the source would read past its buffer.
- WsReceiver.FramedReceiver.Split: does not model the wrap of header size plus payload length at 2^64.
- TunnelWriting.Tunnel.TunnelWrite: stops undecided when the given turns run out, because a loop that is told to try again for ever does not end.
- Brokers.PingPongStompHandler.Process: takes the CONNECTED reply to be delivered; when that send raises, the reader of the connection ends.
- PubSub.PublishSubscribe: speaks of a broadcast with nothing in flight and without the WebSocket layer; Downlinks.LiveWhenRead has both.
- Lifecycle.DeadlockFreedom: says that some thread can step, not that each call ends, because a libcurl call may ask to be tried again for ever.
