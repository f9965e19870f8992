// The client: session flag, subscriptions, dispatch and the frames it sends
// (src/StompClient.cpp).
module StompClients {
  import opened Prelude
  import opened StompFrames
  import opened StompScanner
  import opened StompParsing
  import opened StompRoundTrip
  import Decimal

  type Handler = nat

  datatype Message =
    Message(destination: string, subscriptionId: string, messageId: string, headers: Headers, body: string)

  datatype Callback =
    | Ran(handler: Handler, message: Message)
    | OnConnected(frame: Frame)
    | OnError(frame: Frame)
    | OnDisconnected(reason: string)
    | OnHeartbeat

  // ---- What the client does, as functions of its state

  datatype Client = Client(connected: bool, nextSubId: nat, subscriptions: map<string, Handler>)

  const NEW_CLIENT := Client(false, 1, map[])

  function SubId(n: nat): (id: string) { "sub-" + Decimal.Print(n) }

  function MessageOf(f: Frame): (m: Message) {
    Message(FirstOr(f.headers, "destination", ""), FirstOr(f.headers, "subscription", ""),
            FirstOr(f.headers, "message-id", ""), f.headers, f.body)
  }

  function OnFrame(c: Client, f: Frame): (r: (Client, seq<Callback>)) {
    if f.command == "CONNECTED" then (c.(connected := true), [OnConnected(f)])
    else if f.command == "MESSAGE" then
      var m := MessageOf(f);
      (c, if m.subscriptionId in c.subscriptions then [Ran(c.subscriptions[m.subscriptionId], m)] else [])
    else if f.command == "ERROR" then (c, [OnError(f)])
    else (c, [])
  }

  function OnEvent(c: Client, e: Event): (r: (Client, seq<Callback>)) {
    if e.Heartbeat? then (c, [OnHeartbeat]) else OnFrame(c, e.frame)
  }

  function OnEvents(c: Client, es: seq<Event>): (r: (Client, seq<Callback>)) {
    if es == [] then (c, [])
    else
      var k := |es| - 1;
      var before := OnEvents(c, es[..k]);
      var last := OnEvent(before.0, es[k]);
      (last.0, before.1 + last.1)
  }

  lemma OnEventsNext(c: Client, es: seq<Event>, i: nat)
    requires i < |es|
    ensures var before := OnEvents(c, es[..i]); var last := OnEvent(before.0, es[i]);
      OnEvents(c, es[..i + 1]) == (last.0, before.1 + last.1)
  {
    assert es[..i + 1][..i] == es[..i];
  }

  const CLOSED := "Connection closed by transport"

  /** A close notifies only a session that was up; an error always does. */
  function OnTransportClosed(c: Client): (r: (Client, seq<Callback>)) {
    (c.(connected := false), if c.connected then [OnDisconnected(CLOSED)] else [])
  }

  function OnTransportError(c: Client, reason: string): (r: (Client, seq<Callback>)) {
    (c.(connected := false), [OnDisconnected(reason)])
  }

  /** The counter is a 64-bit word. */
  function Subscribed(c: Client, h: Handler): (r: Client) {
    Client(c.connected, (c.nextSubId + 1) % WORD, c.subscriptions[SubId(c.nextSubId) := h])
  }

  function Unsubscribed(c: Client, id: string): (r: Client) {
    c.(subscriptions := c.subscriptions - {id})
  }

  function SubscribeFrame(id: string, destination: string, extra: Headers): (f: Frame) {
    Frame("SUBSCRIBE", AssignAll([("id", id), ("destination", destination)], extra), "")
  }

  function UnsubscribeFrame(id: string): (f: Frame) { Frame("UNSUBSCRIBE", [("id", id)], "") }

  function SendFrame(destination: string, body: string, extra: Headers): (f: Frame) {
    Frame("SEND", AssignAll([("destination", destination), (CONTENT_LENGTH, Decimal.Print(|body|))], extra), body)
  }

  datatype Config = Config(url: string, host: string, login: string, passcode: string, acceptVersion: string,
                           outgoing: int, incoming: int, extra: Headers)

  function ConnectHeaders(c: Config): (h: Headers) {
    var fixed := [("accept-version", c.acceptVersion), ("host", c.host)];
    IfGiven(IfGiven(fixed, "login", c.login), "passcode", c.passcode) + [("heart-beat", HeartBeat(c))]
  }

  function IfGiven(headers: Headers, key: string, value: string): (r: Headers) {
    if value != "" then headers + [(key, value)] else headers
  }

  function HeartBeat(c: Config): (s: string) { Decimal.PrintInt(c.outgoing) + "," + Decimal.PrintInt(c.incoming) }

  function ConnectFrame(c: Config): (f: Frame) { Frame("CONNECT", AssignAll(ConnectHeaders(c), c.extra), "") }

  const DISCONNECT_FRAME := Frame("DISCONNECT", [("receipt", "disconnect-receipt")], "")

  // ---- Exact bodies

  /** What `send` emits parses back to exactly the destination's frame with that
      body, NUL bytes included, for any clean destination and clean extra headers
      that leave content-length alone. */
  lemma SendIsExact(destination: string, body: string, extra: Headers)
    requires |body| < WORD
    requires '\n' !in destination && StripCr(destination) == destination
    requires CleanHeaders(extra)
    requires forall i :: 0 <= i < |extra| ==> extra[i].0 != CONTENT_LENGTH
    ensures WellFormed(SendFrame(destination, body, extra))
    ensures Run(Between, Wire(SendFrame(destination, body, extra)))
         == Out(Between, [Received(SendFrame(destination, body, extra))])
    ensures SendFrame(destination, body, extra).body == body
    ensures UniqueKeys(SendFrame(destination, body, extra).headers)
  {
    SendLength(destination, body, extra);
    SendClean(destination, body, extra);
    FrameRoundTrip(SendFrame(destination, body, extra));
  }

  lemma SendClean(destination: string, body: string, extra: Headers)
    requires '\n' !in destination && StripCr(destination) == destination
    requires CleanHeaders(extra)
    ensures CleanHeaders(SendFrame(destination, body, extra).headers)
    ensures UniqueKeys(SendFrame(destination, body, extra).headers)
  {
    var base := [("destination", destination), (CONTENT_LENGTH, Decimal.Print(|body|))];
    PrintIsClean(|body|);
    CleanAfterAll(base, extra);
    AssignAllUnique(base, extra);
  }

  lemma SendLength(destination: string, body: string, extra: Headers)
    requires |body| < WORD
    requires forall i :: 0 <= i < |extra| ==> extra[i].0 != CONTENT_LENGTH
    ensures ContentLength(SendFrame(destination, body, extra)) == Some(|body|)
  {
    var base := [("destination", destination), (CONTENT_LENGTH, Decimal.Print(|body|))];
    AssignAllOther(base, extra, CONTENT_LENGTH);
    assert First(base, CONTENT_LENGTH) == First(base[1..], CONTENT_LENGTH) == Some(Decimal.Print(|body|));
    Decimal.FromCharsOfPrint(|body|, "");
    assert Decimal.Print(|body|) + "" == Decimal.Print(|body|);
  }

  lemma CleanAfterAll(base: Headers, extra: Headers)
    requires CleanHeaders(base) && CleanHeaders(extra)
    ensures CleanHeaders(AssignAll(base, extra))
  {
    var all := AssignAll(base, extra);
    forall i | 0 <= i < |all| ensures CleanHeader(all[i]) {
      AssignAllFrom(base, extra, i);
    }
  }

  lemma PrintIsClean(n: nat)
    ensures '\n' !in Decimal.Print(n) && '\r' !in Decimal.Print(n) && StripCr(Decimal.Print(n)) == Decimal.Print(n)
  {
    var s := Decimal.Print(n);
    assert forall i :: 0 <= i < |s| ==> Decimal.IsDigit(s[i]);
  }

  // ---- Extra headers

  /** The value the caller gave a key last, if any. */
  function Given(extra: Headers, key: string): (v: Option<string>) {
    if extra == [] then None
    else
      var k := |extra| - 1;
      if extra[k].0 == key then Some(extra[k].1) else Given(extra[..k], key)
  }

  function Either(a: Option<string>, b: Option<string>): (v: Option<string>) { if a.Some? then a else b }

  lemma {:induction false} GivenFirst(h: (string, string), extra: Headers, key: string)
    ensures Given([h] + extra, key) == Either(Given(extra, key), if h.0 == key then Some(h.1) else None)
    decreases |extra|
  {
    if extra == [] {
      assert [h] + extra == [h] && [h][..0] == [];
    } else {
      var k := |extra| - 1;
      assert ([h] + extra)[..|extra|] == [h] + extra[..k];
      GivenFirst(h, extra[..k], key);
    }
  }

  lemma {:induction false} ExtraWins(base: Headers, extra: Headers, key: string)
    ensures First(AssignAll(base, extra), key) == Either(Given(extra, key), First(base, key))
    decreases |extra|
  {
    if extra != [] {
      var next := Assign(base, extra[0].0, extra[0].1);
      AssignFirst(base, extra[0].0, extra[0].1, key);
      ExtraWins(next, extra[1..], key);
      assert extra == [extra[0]] + extra[1..];
      GivenFirst(extra[0], extra[1..], key);
    }
  }

  /** Every frame that takes extra headers carries them: each key has the value given
      last, and a key that is not given the value the client sets. */
  lemma ExtrasAreSent(id: string, destination: string, body: string, c: Config, extra: Headers, key: string)
    requires c.extra == extra
    ensures First(SubscribeFrame(id, destination, extra).headers, key)
         == Either(Given(extra, key), First([("id", id), ("destination", destination)], key))
    ensures var own := [("destination", destination), (CONTENT_LENGTH, Decimal.Print(|body|))];
      First(SendFrame(destination, body, extra).headers, key) == Either(Given(extra, key), First(own, key))
    ensures First(ConnectFrame(c).headers, key) == Either(Given(extra, key), First(ConnectHeaders(c), key))
  {
    ExtraWins([("id", id), ("destination", destination)], extra, key);
    ExtraWins([("destination", destination), (CONTENT_LENGTH, Decimal.Print(|body|))], extra, key);
    ExtraWins(ConnectHeaders(c), extra, key);
  }

  // ---- The objects

  /** The transport as the client sees it: whether it is connected and what was
      handed to it. */
  class Transport {
    var connected: bool
    var sent: seq<string>

    constructor ()
      ensures !connected && sent == []
    {
      connected, sent := false, [];
    }

    /** The bytes of one message; the result of the write is the network's. */
    method Send(data: string) returns (ok: bool)
      modifies this
      ensures connected == old(connected)
      ensures sent == if connected then old(sent) + [data] else old(sent)
      ensures ok ==> connected
    {
      ok := false;
      if connected {
        sent := sent + [data];
        ok := *;
      }
    }

    /** Connects or not; a failure may be reported through onError. */
    method Open(url: string) returns (ok: bool, error: Option<string>)
      modifies this
      ensures connected == ok && sent == old(sent) && (ok ==> error == None)
    {
      connected := *;
      ok, error := connected, None;
      if !ok {
        error := *;
      }
    }

    method Close()
      modifies this
      ensures !connected && sent == old(sent)
    {
      connected := false;
    }
  }

  /** No two of the fixed CONNECT headers share a key, so each is set at the end. */
  method BuildConnectFrame(config: Config) returns (frame: StompFrame)
    ensures fresh(frame) && frame.Value() == ConnectFrame(config)
  {
    frame := new StompFrame("CONNECT");
    frame.SetHeader("accept-version", config.acceptVersion);
    AppendNew(frame, "host", config.host);
    assert frame.headers == [("accept-version", config.acceptVersion), ("host", config.host)];
    if config.login != "" {
      AppendNew(frame, "login", config.login);
    }
    if config.passcode != "" {
      AppendNew(frame, "passcode", config.passcode);
    }
    AppendNew(frame, "heart-beat", HeartBeat(config));
    assert frame.headers == ConnectHeaders(config);
    frame.SetAll(config.extra);
  }

  method AppendNew(frame: StompFrame, key: string, value: string)
    requires forall i :: 0 <= i < |frame.headers| ==> frame.headers[i].0 != key
    modifies frame
    ensures frame.Value() == old(frame.Value()).(headers := old(frame.headers) + [(key, value)])
  {
    AssignAt(frame.headers, key, value, |frame.headers|);
    frame.SetHeader(key, value);
  }

  /** Nothing was called, or onDisconnected once: what a failed open may report. */
  predicate AtMostOneNotice(before: seq<Callback>, after: seq<Callback>) {
    after == before || (|after| == |before| + 1 && after[..|before|] == before && after[|before|].OnDisconnected?)
  }

  class StompClient {
    const transport: Transport?
    var parser: StompParser
    var connected: bool
    var nextSubId: nat
    var subscriptions: map<string, Handler>
    var calls: seq<Callback>     // every user callback so far, in order

    function View(): (c: Client)
      reads this
    {
      Client(connected, nextSubId, subscriptions)
    }

    ghost predicate Valid()
      reads this, parser, parser.currentFrame
    {
      parser.Valid() && nextSubId < WORD
    }

    predicate Online()
      reads this, transport
    {
      transport != null && transport.connected
    }

    constructor (transport: Transport?)
      ensures this.transport == transport && Valid() && fresh(parser) && fresh(parser.currentFrame)
      ensures View() == NEW_CLIENT && calls == [] && parser.fed == ""
    {
      this.transport := transport;
      parser := new StompParser();
      connected, nextSubId, subscriptions, calls := false, 1, map[], [];
    }

    method Connect(config: Config) returns (ok: bool)
      requires Valid()
      modifies this, transport, parser
      ensures Valid() && parser == old(parser)
      ensures transport == null ==> !ok && View() == old(View()) && calls == old(calls)
      ensures transport != null ==>
        && parser.fed == "" && View() == old(View()).(connected := false)
        && (transport.connected ==>
              transport.sent == old(transport.sent) + [Wire(ConnectFrame(config))] && calls == old(calls))
        && (!transport.connected ==> !ok && transport.sent == old(transport.sent) && AtMostOneNotice(old(calls), calls))
    {
      if transport == null {
        return false;
      }
      parser.Reset();
      connected := false;
      var opened', error := transport.Open(config.url);
      if !opened' {
        if error.Some? {
          HandleTransportError(error.value);
        }
        return false;
      }
      var frame := BuildConnectFrame(config);
      var serialized := frame.Serialize();
      ok := transport.Send(serialized);
    }

    method Disconnect()
      modifies this, transport
      ensures View() == old(View()).(connected := false) && calls == old(calls) && parser == old(parser)
      ensures !Online()
      ensures transport != null ==>
        transport.sent == if old(connected && Online()) then old(transport.sent) + [Wire(DISCONNECT_FRAME)]
                          else old(transport.sent)
    {
      if connected && transport != null && transport.connected {
        var frame := new StompFrame("DISCONNECT");
        frame.SetHeader("receipt", "disconnect-receipt");
        var serialized := frame.Serialize();
        assert frame.Value() == DISCONNECT_FRAME;
        var _ := transport.Send(serialized);
      }
      connected := false;
      if transport != null {
        transport.Close();
      }
    }

    method Subscribe(destination: string, callback: Handler, extra: Headers) returns (id: string)
      requires nextSubId < WORD
      modifies this, transport
      ensures id == SubId(old(nextSubId))
      ensures View() == Subscribed(old(View()), callback) && calls == old(calls) && parser == old(parser)
      ensures Online() == old(Online())
      ensures transport != null ==>
        transport.sent == if old(Online()) then old(transport.sent) + [Wire(SubscribeFrame(id, destination, extra))]
                          else old(transport.sent)
    {
      id := SubId(nextSubId);
      nextSubId := (nextSubId + 1) % WORD;
      subscriptions := subscriptions[id := callback];
      if transport != null && transport.connected {
        var frame := new StompFrame("SUBSCRIBE");
        frame.SetHeader("id", id);
        frame.SetHeader("destination", destination);
        frame.SetAll(extra);
        var serialized := frame.Serialize();
        var _ := transport.Send(serialized);
      }
    }

    method Unsubscribe(id: string)
      modifies this, transport
      ensures View() == Unsubscribed(old(View()), id) && calls == old(calls) && parser == old(parser)
      ensures Online() == old(Online())
      ensures transport != null ==>
        transport.sent == if old(Online()) then old(transport.sent) + [Wire(UnsubscribeFrame(id))]
                          else old(transport.sent)
    {
      subscriptions := subscriptions - {id};
      if transport != null && transport.connected {
        var frame := new StompFrame("UNSUBSCRIBE");
        frame.SetHeader("id", id);
        var serialized := frame.Serialize();
        var _ := transport.Send(serialized);
      }
    }

    method Send(destination: string, body: string, extra: Headers) returns (ok: bool)
      modifies transport
      ensures Online() == old(Online()) && (ok ==> Online())
      ensures transport != null ==>
        transport.sent == if old(Online()) then old(transport.sent) + [Wire(SendFrame(destination, body, extra))]
                          else old(transport.sent)
    {
      if transport == null || !transport.connected {
        return false;
      }
      var frame := new StompFrame("SEND");
      frame.SetHeader("destination", destination);
      frame.SetHeader(CONTENT_LENGTH, Decimal.Print(|body|));
      frame.SetAll(extra);
      frame.SetBody(body);
      var serialized := frame.Serialize();
      ok := transport.Send(serialized);
    }

    method SendHeartbeat()
      modifies transport
      ensures transport != null ==>
        transport.sent == if old(Online()) then old(transport.sent) + ["\n"] else old(transport.sent)
    {
      if transport != null && transport.connected {
        var _ := transport.Send("\n");
      }
    }

    /** onData: parse, and handle each event in order. */
    method OnData(data: string)
      requires Valid()
      modifies this, parser, parser.currentFrame
      ensures Valid() && parser == old(parser)
      ensures parser.fed == old(parser.fed) + data
      ensures var out := OnEvents(old(View()), Fed(old(parser.Fields()), data).1);
              View() == out.0 && calls == old(calls) + out.1
    {
      var events := parser.Feed(data);
      HandleEvents(events);
    }

    /** The parser's callbacks, one after the other. */
    method HandleEvents(events: seq<Event>)
      requires nextSubId < WORD
      modifies this`connected, this`calls
      ensures var out := OnEvents(old(View()), events); View() == out.0 && calls == old(calls) + out.1
    {
      assert events[..0] == [];
      for i := 0 to |events|
        invariant var out := OnEvents(old(View()), events[..i]); View() == out.0 && calls == old(calls) + out.1
      {
        OnEventsNext(old(View()), events, i);
        HandleEvent(events[i]);
      }
      assert events[..|events|] == events;
    }

    method HandleEvent(e: Event)
      requires nextSubId < WORD
      modifies this`connected, this`calls
      ensures (View(), calls) == (OnEvent(old(View()), e).0, old(calls) + OnEvent(old(View()), e).1)
    {
      if e.Heartbeat? {
        calls := calls + [OnHeartbeat];
      } else {
        HandleIncomingFrame(e.frame);
      }
    }

    method HandleIncomingFrame(f: Frame)
      modifies this`connected, this`calls
      ensures (View(), calls) == (OnFrame(old(View()), f).0, old(calls) + OnFrame(old(View()), f).1)
    {
      assert calls + [] == calls;
      if f.command == "CONNECTED" {
        connected := true;
        calls := calls + [OnConnected(f)];
      } else if f.command == "MESSAGE" {
        var m := MessageOf(f);
        if m.subscriptionId in subscriptions {
          calls := calls + [Ran(subscriptions[m.subscriptionId], m)];
        }
      } else if f.command == "ERROR" {
        calls := calls + [OnError(f)];
      }
    }

    method HandleTransportClosed()
      modifies this`connected, this`calls
      ensures (View(), calls) == (OnTransportClosed(old(View())).0, old(calls) + OnTransportClosed(old(View())).1)
    {
      assert calls + [] == calls;
      var wasConnected := connected;
      connected := false;
      if wasConnected {
        calls := calls + [OnDisconnected(CLOSED)];
      }
    }

    method HandleTransportError(error: string)
      modifies this`connected, this`calls
      ensures (View(), calls)
           == (OnTransportError(old(View()), error).0, old(calls) + OnTransportError(old(View()), error).1)
    {
      connected := false;
      calls := calls + [OnDisconnected(error)];
    }
  }
}
