// Both codecs together: bytes off the socket go through the WebSocket decoder into
// the STOMP parser (src/CurlTransport.cpp, src/StompClient.cpp:16-18).
module FullStack {
  import opened Prelude
  import opened StompFrames
  import opened StompScanner
  import opened StompParsing
  import opened StompRoundTrip
  import opened WsFrames
  import opened WsReceiver

  predicate IsText(s: string) { forall i :: 0 <= i < |s| ==> s[i] as int < 256 }

  /** The bytes of a std::string. */
  function Octets(s: string): (b: Bytes)
    requires IsText(s)
    ensures |b| == |s| && forall i :: 0 <= i < |s| ==> b[i] == s[i] as int
  {
    seq(|s|, i requires 0 <= i < |s| => s[i] as int)
  }

  function Text(b: Bytes): (s: string)
    ensures |s| == |b| && forall i :: 0 <= i < |b| ==> s[i] as int == b[i]
  {
    seq(|b|, i requires 0 <= i < |b| => b[i] as char)
  }

  lemma TextOfOctets(s: string)
    requires IsText(s)
    ensures Text(Octets(s)) == s
  {
    assert forall i :: 0 <= i < |s| ==> Text(Octets(s))[i] as int == s[i] as int;
  }

  function Texts(payloads: seq<Bytes>): (s: string) {
    if payloads == [] then "" else Text(payloads[0]) + Texts(payloads[1..])
  }

  lemma TextsAppend(a: seq<Bytes>, b: seq<Bytes>)
    ensures Texts(a + b) == Texts(a) + Texts(b)
  {
    if a == [] {
      assert a + b == b;
    } else {
      assert (a + b)[1..] == a[1..] + b;
      TextsAppend(a[1..], b);
    }
  }

  /** Decoder and parser of one connection. */
  class ReceivePath {
    var receiver: FramedReceiver
    var parser: StompParser

    ghost predicate Valid()
      reads this, receiver, parser, parser.currentFrame
    {
      && receiver.Valid() && parser.Valid()
      && parser.fed == Texts(receiver.delivered)
    }

    constructor ()
      ensures Valid() && fresh(receiver) && fresh(parser) && fresh(parser.currentFrame)
      ensures receiver.Session() == FRESH && parser.Fields() == START && parser.trace == []
    {
      receiver := new FramedReceiver();
      parser := new StompParser();
    }

    /** One read of the worker: decode, and feed each text or binary payload. */
    method OnReceived(chunk: Bytes) returns (events: seq<StompScanner.Event>)
      requires Valid()
      modifies receiver, parser, parser.currentFrame
      ensures Valid() && (parser.currentFrame == old(parser.currentFrame) || fresh(parser.currentFrame))
      ensures receiver.Session() == Receive(old(receiver.Session()), chunk)
      ensures parser.trace == old(parser.trace) + events
    {
      var seen := |receiver.delivered|;
      ghost var was := receiver.Session();
      receiver.OnReceived(chunk);
      DeliveredGrows(was, chunk);
      assert receiver.delivered == Payloads(receiver.Session().events);
      var now := receiver.delivered[seen..];
      assert receiver.delivered == old(receiver.delivered) + now;
      TextsAppend(old(receiver.delivered), now);
      events := FeedPayloads(parser, now);
    }
  }

  /** The onData callback, once for each payload. */
  method FeedPayloads(parser: StompParser, payloads: seq<Bytes>) returns (events: seq<StompScanner.Event>)
    requires parser.Valid()
    modifies parser, parser.currentFrame
    ensures parser.Valid() && (parser.currentFrame == old(parser.currentFrame) || fresh(parser.currentFrame))
    ensures parser.fed == old(parser.fed) + Texts(payloads) && parser.trace == old(parser.trace) + events
  {
    events := [];
    for i := 0 to |payloads|
      invariant parser.Valid()
      invariant parser.currentFrame == old(parser.currentFrame) || fresh(parser.currentFrame)
      invariant parser.fed == old(parser.fed) + Texts(payloads[..i])
      invariant parser.trace == old(parser.trace) + events
    {
      TextsNext(payloads, i);
      ghost var before := events;
      var more := parser.Feed(Text(payloads[i]));
      events := events + more;
      assert parser.fed == old(parser.fed) + Texts(payloads[..i]) + Text(payloads[i]);
      assert old(parser.trace) + before + more == old(parser.trace) + (before + more);
    }
    assert payloads[..|payloads|] == payloads;
  }

  lemma TextsNext(payloads: seq<Bytes>, i: nat)
    requires i < |payloads|
    ensures Texts(payloads[..i + 1]) == Texts(payloads[..i]) + Text(payloads[i])
  {
    TextsAppend(payloads[..i], [payloads[i]]);
    var one: seq<Bytes> := [payloads[i]];
    assert one[1..] == [] && Texts(one) == Text(payloads[i]) + Texts(one[1..]);
    assert payloads[..i] + [payloads[i]] == payloads[..i + 1];
  }

  lemma DeliveredGrows(d: Drain, chunk: Bytes)
    ensures Payloads(d.events) <= Payloads(Receive(d, chunk).events)
  {
    if !d.closed {
      PayloadsAppend(d.events, DrainAll(d.rest + chunk).events);
    }
  }

  /** The sender's bytes: every piece serialized and wrapped by `send`. */
  function SentBytes(pieces: seq<Piece>, masks: seq<Mask>): (b: Bytes)
    requires |masks| == |pieces|
    requires forall i :: 0 <= i < |pieces| ==> Sendable(pieces[i])
  {
    if pieces == [] then []
    else
      assert Sendable(pieces[0]);
      TextFrame(Octets(PieceText(pieces[0])), masks[0]) + SentBytes(pieces[1..], masks[1..])
  }

  predicate Sendable(p: Piece) { IsText(PieceText(p)) && |PieceText(p)| < WORD }

  function Messages(pieces: seq<Piece>): (es: seq<WsReceiver.Event>)
    requires forall i :: 0 <= i < |pieces| ==> Sendable(pieces[i])
  {
    if pieces == [] then []
    else
      assert Sendable(pieces[0]);
      [Data(Octets(PieceText(pieces[0])))] + Messages(pieces[1..])
  }

  lemma {:induction false} SentBytesDrained(pieces: seq<Piece>, masks: seq<Mask>)
    requires |masks| == |pieces|
    requires forall i :: 0 <= i < |pieces| ==> Sendable(pieces[i])
    ensures DrainAll(SentBytes(pieces, masks)) == Drain(Messages(pieces), [], false)
    ensures Texts(Payloads(Messages(pieces))) == StreamText(pieces)
    decreases |pieces|
  {
    if pieces != [] {
      assert Sendable(pieces[0]);
      var payload := Octets(PieceText(pieces[0]));
      var frame := TextFrame(payload, masks[0]);
      var rest := SentBytes(pieces[1..], masks[1..]);
      TextFrameRoundTrip(payload, masks[0], rest);
      assert (frame + rest)[|frame|..] == rest;
      SentBytesDrained(pieces[1..], masks[1..]);
      TextOfOctets(PieceText(pieces[0]));
      var es := Messages(pieces);
      assert es[1..] == Messages(pieces[1..]);
      assert Payloads(es) == [payload] + Payloads(es[1..]);
    }
  }

  /** Full stack: well-formed STOMP frames and heartbeats, each serialized and
      wrapped with any mask, sent one after the other and cut into any reads, come
      out of the parser in order, and both buffers end empty. */
  lemma FullStackRoundTrip(pieces: seq<Piece>, masks: seq<Mask>, chunks: seq<Bytes>)
    requires |masks| == |pieces|
    requires forall i :: 0 <= i < |pieces| ==> Sendable(pieces[i]) && CleanPiece(pieces[i])
    requires Flatten(chunks) == SentBytes(pieces, masks)
    ensures var d := ReceiveAll(FRESH, chunks);
            && !d.closed && d.rest == []
            && Fed(START, Texts(Payloads(d.events))) == (START, StreamEvents(pieces))
  {
    WsReceiver.ChunkIndependence(chunks, chunks);
    SentBytesDrained(pieces, masks);
    StreamRoundTrip(pieces);
    assert "" + StreamText(pieces) == StreamText(pieces);
  }

  /** The same, seen on the objects: whatever reads the worker made, once they add
      up to what was sent the parser has reported exactly the frames sent. */
  lemma ReceivePathRoundTrip(path: ReceivePath, pieces: seq<Piece>, masks: seq<Mask>, chunks: seq<Bytes>)
    requires |masks| == |pieces|
    requires forall i :: 0 <= i < |pieces| ==> Sendable(pieces[i]) && CleanPiece(pieces[i])
    requires Flatten(chunks) == SentBytes(pieces, masks)
    requires path.Valid() && path.receiver.Session() == ReceiveAll(FRESH, chunks)
    ensures path.parser.trace == StreamEvents(pieces)
    ensures path.parser.buffer == "" && path.receiver.assembled == []
  {
    FullStackRoundTrip(pieces, masks, chunks);
    assert "" + path.parser.fed == path.parser.fed;
  }
}
