// CONNECT and its answer (src/StompClient.cpp:62-86, examples/server/stomp_server.py:
// 87-99): how the client and the broker come to be connected.
module Handshakes {
  import opened Prelude
  import opened StompFrames
  import opened StompScanner
  import opened StompRoundTrip
  import opened StompClients
  import opened Brokers
  import opened BrokerSends
  import opened PubSub
  import opened TextFrames
  import opened Unicode
  import Decimal

  /** The bytes of a configuration given as texts. */
  function Utf8Config(c: Config): (b: Config) {
    c.(host := Utf8(c.host), login := Utf8(c.login), passcode := Utf8(c.passcode),
       acceptVersion := Utf8(c.acceptVersion), extra := Utf8Headers(c.extra))
  }

  predicate CleanConfig(c: Config) {
    OneLine(c.host) && OneLine(c.login) && OneLine(c.passcode) && OneLine(c.acceptVersion) && AllReadable(c.extra)
  }

  // ---- CONNECT

  lemma NoBytesNoText(t: string)
    ensures Utf8(t) == "" <==> t == ""
  {
    Utf8Bytes(t);
  }

  lemma IfGivenBytes(headers: Headers, key: string, value: string)
    requires Ascii(key)
    ensures Utf8Headers(IfGiven(headers, key, value)) == IfGiven(Utf8Headers(headers), key, Utf8(value))
  {
    NoBytesNoText(value);
    Utf8HeadersAppend(headers, [(key, value)]);
    OneHeader((key, value));
    AsciiHeader((key, value));
  }

  lemma IntIsAscii(n: int)
    ensures Ascii(Decimal.PrintInt(n)) && OneLine(Decimal.PrintInt(n))
  {
    PrintIsAscii(if n < 0 then -n else n);
    DigitsReadable(if n < 0 then -n else n);
  }

  lemma HeartBeatAscii(c: Config)
    ensures Ascii(HeartBeat(c)) && OneLine(HeartBeat(c))
  {
    IntIsAscii(c.outgoing);
    IntIsAscii(c.incoming);
  }

  lemma FixedBytes(k0: string, k1: string, v0: string, v1: string)
    requires Ascii(k0) && Ascii(k1)
    ensures Utf8Headers([(k0, v0), (k1, v1)]) == [(k0, Utf8(v0)), (k1, Utf8(v1))]
  {
    AsciiKeys([(k0, v0), (k1, v1)]);
  }

  lemma ConnectKeysAscii()
    ensures Ascii("accept-version") && Ascii("host") && Ascii("login") && Ascii("passcode") && Ascii("heart-beat")
    ensures Ascii("CONNECT")
  {
  }

  lemma LastBytes(front: Headers, key: string, value: string)
    requires Ascii(key) && Ascii(value)
    ensures Utf8Headers(front + [(key, value)]) == Utf8Headers(front) + [(key, value)]
  {
    Utf8HeadersAppend(front, [(key, value)]);
    OneHeader((key, value));
    AsciiHeader((key, value));
  }

  lemma ConnectHeaderBytes(c: Config)
    ensures Utf8Headers(ConnectHeaders(c)) == ConnectHeaders(Utf8Config(c))
  {
    ConnectKeysAscii();
    var fixed := [("accept-version", c.acceptVersion), ("host", c.host)];
    FixedBytes("accept-version", "host", c.acceptVersion, c.host);
    IfGivenBytes(fixed, "login", c.login);
    IfGivenBytes(IfGiven(fixed, "login", c.login), "passcode", c.passcode);
    HeartBeatAscii(c);
    LastBytes(IfGiven(IfGiven(fixed, "login", c.login), "passcode", c.passcode), "heart-beat", HeartBeat(c));
  }

  lemma ConnectBytes(c: Config)
    ensures ConnectFrame(Utf8Config(c)).headers == Utf8Headers(ConnectFrame(c).headers)
  {
    ConnectHeaderBytes(c);
    Utf8AssignAll(ConnectHeaders(c), c.extra);
  }

  lemma IfGivenReadable(headers: Headers, key: string, value: string)
    requires AllReadable(headers) && ':' !in key && OneLine(key) && OneLine(value)
    ensures AllReadable(IfGiven(headers, key, value))
  {
  }

  lemma ConnectKeysOneLine()
    ensures Readable(("accept-version", "")) && Readable(("host", "")) && Readable(("login", ""))
    ensures Readable(("passcode", "")) && Readable(("heart-beat", ""))
  {
  }

  lemma FixedReadable(c: Config)
    requires CleanConfig(c)
    ensures AllReadable(ConnectHeaders(c)) && ConnectHeaders(c) != []
  {
    ConnectKeysOneLine();
    HeartBeatAscii(c);
    var fixed := [("accept-version", c.acceptVersion), ("host", c.host)];
    assert AllReadable(fixed);
    IfGivenReadable(fixed, "login", c.login);
    IfGivenReadable(IfGiven(fixed, "login", c.login), "passcode", c.passcode);
  }

  lemma ConnectReadable(c: Config)
    requires CleanConfig(c)
    ensures AllReadable(ConnectFrame(c).headers) && ConnectFrame(c).headers != []
  {
    FixedReadable(c);
    var h := ConnectFrame(c).headers;
    forall i | 0 <= i < |h| ensures Readable(h[i]) {
      AssignAllFrom(ConnectHeaders(c), c.extra, i);
    }
    AssignAllLength(ConnectHeaders(c), c.extra);
  }

  lemma ConnectPlain()
    ensures Plain("CONNECT") && !IsSpace("CONNECT"[0])
  {
    StripNothing("CONNECT");
  }

  /** The broker reads one CONNECT, whatever the configuration, and answers it. */
  lemma ConnectAnswered(b: Broker, c: Config)
    requires CleanConfig(c)
    ensures HandlePayload(b, Wire(ConnectFrame(Utf8Config(c))))
         == b.(connected := true, sent := b.sent + [CONNECTED_TEXT])
  {
    ConnectKeysAscii();
    ConnectBytes(c);
    HeardFrameAs(ConnectFrame(Utf8Config(c)), "CONNECT", ConnectFrame(c).headers);
    ConnectReadable(c);
    ConnectPlain();
    NoBody("CONNECT", ConnectFrame(c).headers);
    OneConnect(b, Parsed(Dictionary(ConnectFrame(c).headers, map[]), ""));
  }

  lemma NoBody(command: string, headers: Headers)
    requires command != "" && Plain(command) && !IsSpace(command[0]) && headers != [] && AllReadable(headers)
    ensures ReadAs(command, headers, FromUtf8("")) == Some([(command, Parsed(Dictionary(headers, map[]), ""))])
  {
    FrameArrives(command, headers, "");
  }

  lemma OneConnect(b: Broker, p: Parsed)
    ensures OnFrames(b, [("CONNECT", p)]) == b.(connected := true, sent := b.sent + [CONNECTED_TEXT])
  {
    assert [("CONNECT", p)][1..] == [];
  }

  // ---- What the broker reads of a configuration

  /** Header i is the last with its key for the broker, which strips keys and values. */
  lemma {:induction false} DictionaryAt(headers: Headers, d: map<string, string>, i: nat)
    requires i < |headers|
    requires forall j :: i < j < |headers| ==> Strip(headers[j].0) != Strip(headers[i].0)
    ensures var r, key := Dictionary(headers, d), Strip(headers[i].0); key in r && r[key] == Strip(headers[i].1)
    decreases i
  {
    var next := d[Strip(headers[0].0) := Strip(headers[0].1)];
    var rest := headers[1..];
    assert forall j :: 0 <= j < |rest| ==> rest[j] == headers[j + 1];
    if i == 0 {
      DictionaryOther(rest, next, Strip(headers[0].0));
    } else {
      DictionaryAt(rest, next, i - 1);
    }
  }

  predicate FixedKey(key: string) {
    key == "accept-version" || key == "host" || key == "login" || key == "passcode" || key == "heart-beat"
  }

  /** Extra headers that do not override the fixed ones for the broker. */
  predicate Apart(extra: Headers) { forall i :: 0 <= i < |extra| ==> !FixedKey(Strip(extra[i].0)) }

  lemma FixedKeysPlain(key: string)
    requires FixedKey(key)
    ensures Strip(key) == key
  {
    StripNothing(key);
  }

  // The fixed headers are different, and only the given ones are there.
  predicate Distinct(h: Headers) {
    && (forall i :: 0 <= i < |h| ==> FixedKey(h[i].0))
    && (forall i, j :: 0 <= i < j < |h| ==> h[i].0 != h[j].0)
  }

  lemma ConnectDistinct(c: Config)
    ensures Distinct(ConnectHeaders(c))
  {
  }

  /** The broker's dictionary of distinct headers with others behind them. */
  lemma DistinctRead(h: Headers, extra: Headers, i: nat)
    requires Distinct(h) && Apart(extra) && i < |h|
    ensures var d := Dictionary(AssignAll(h, extra), map[]); h[i].0 in d && d[h[i].0] == Strip(h[i].1)
  {
    forall k, j | 0 <= k < |extra| && 0 <= j < |h| ensures extra[k].0 != h[j].0 {
      FixedKeysPlain(h[j].0);
    }
    AssignAllKeeps(h, |h|, extra);
    var all := AssignAll(h, extra);
    assert all[i] == all[..|h|][i];
    FixedKeysPlain(h[i].0);
    forall j | i < j < |all| ensures Strip(all[j].0) != Strip(all[i].0) {
      if j < |h| {
        assert all[j] == all[..|h|][j];
        FixedKeysPlain(h[j].0);
      } else {
        assert all[j] in extra;
      }
    }
    DictionaryAt(all, map[], i);
  }

  lemma NotGivenNotRead(h: Headers, extra: Headers, key: string)
    requires Distinct(h) && Apart(extra) && FixedKey(key) && forall i :: 0 <= i < |h| ==> h[i].0 != key
    ensures key !in Dictionary(AssignAll(h, extra), map[])
  {
    var all := AssignAll(h, extra);
    forall i | 0 <= i < |all| ensures Strip(all[i].0) != key {
      AssignAllFrom(h, extra, i);
      if all[i] in h {
        FixedKeysPlain(all[i].0);
      }
    }
    DictionaryOther(all, map[], key);
  }

  predicate Tells(d: map<string, string>, key: string, value: string) { key in d && d[key] == Strip(value) }

  predicate TellsIfGiven(d: map<string, string>, key: string, value: string) {
    if value == "" then key !in d else Tells(d, key, value)
  }

  /** What the broker should learn from CONNECT. */
  predicate Says(d: map<string, string>, c: Config) {
    && Tells(d, "accept-version", c.acceptVersion) && Tells(d, "host", c.host)
    && TellsIfGiven(d, "login", c.login) && TellsIfGiven(d, "passcode", c.passcode)
    && Tells(d, "heart-beat", Decimal.PrintInt(c.outgoing) + "," + Decimal.PrintInt(c.incoming))
  }

  /** The header of an optional value is there exactly when the value is given. */
  predicate HasIfGiven(h: Headers, key: string, value: string) {
    if value == "" then forall i :: 0 <= i < |h| ==> h[i].0 != key else (key, value) in h
  }

  lemma ConnectHas(c: Config)
    ensures var h := ConnectHeaders(c);
      && ("accept-version", c.acceptVersion) in h && ("host", c.host) in h && ("heart-beat", HeartBeat(c)) in h
      && HasIfGiven(h, "login", c.login) && HasIfGiven(h, "passcode", c.passcode)
  {
    var fixed := [("accept-version", c.acceptVersion), ("host", c.host)];
    var front := IfGiven(IfGiven(fixed, "login", c.login), "passcode", c.passcode);
    assert fixed[0] in fixed && fixed[1] in fixed;
    assert ConnectHeaders(c) == front + [("heart-beat", HeartBeat(c))];
  }

  lemma GivenRead(h: Headers, extra: Headers, key: string, value: string)
    requires Distinct(h) && Apart(extra) && (key, value) in h
    ensures Tells(Dictionary(AssignAll(h, extra), map[]), key, value)
  {
    var i :| 0 <= i < |h| && h[i] == (key, value);
    DistinctRead(h, extra, i);
  }

  lemma OptionalRead(h: Headers, extra: Headers, key: string, value: string)
    requires Distinct(h) && Apart(extra) && FixedKey(key) && HasIfGiven(h, key, value)
    ensures TellsIfGiven(Dictionary(AssignAll(h, extra), map[]), key, value)
  {
    if value == "" {
      NotGivenNotRead(h, extra, key);
    } else {
      GivenRead(h, extra, key, value);
    }
  }

  lemma ConnectSays(c: Config)
    requires Apart(c.extra)
    ensures Says(Dictionary(ConnectFrame(c).headers, map[]), c)
  {
    var h := ConnectHeaders(c);
    ConnectDistinct(c);
    ConnectHas(c);
    GivenRead(h, c.extra, "accept-version", c.acceptVersion);
    GivenRead(h, c.extra, "host", c.host);
    GivenRead(h, c.extra, "heart-beat", HeartBeat(c));
    OptionalRead(h, c.extra, "login", c.login);
    OptionalRead(h, c.extra, "passcode", c.passcode);
  }

  /** The broker learns exactly the configuration: its texts stripped, a login and a
      passcode if and only if they are given. */
  lemma ConnectIsRead(c: Config)
    requires CleanConfig(c) && Apart(c.extra)
    ensures var heard := Heard(Wire(ConnectFrame(Utf8Config(c))));
      && heard.Some? && |heard.value| == 1 && heard.value[0].0 == "CONNECT" && heard.value[0].1.body == ""
      && Says(heard.value[0].1.headers, c)
  {
    ConnectKeysAscii();
    ConnectBytes(c);
    HeardFrameAs(ConnectFrame(Utf8Config(c)), "CONNECT", ConnectFrame(c).headers);
    ConnectReadable(c);
    ConnectPlain();
    NoBody("CONNECT", ConnectFrame(c).headers);
    ConnectSays(c);
  }

  // ---- The other commands

  predicate Named(command: string) { command != "" && Plain(command) && !IsSpace(command[0]) }

  /** A text frame with no body, as the broker takes it. */
  lemma CommandRead(b: Broker, command: string, headers: Headers)
    requires Named(command) && headers != [] && AllReadable(headers)
    ensures HandleRaw(b, Wire(Frame(command, headers, "")))
         == Brokers.OnFrame(b, command, Parsed(Dictionary(headers, map[]), ""))
  {
    var p := Parsed(Dictionary(headers, map[]), "");
    FrameArrives(command, headers, "");
    assert [(command, p)][1..] == [];
    assert OnFrames(b, [(command, p)]) == OnFrames(Brokers.OnFrame(b, command, p), []);
  }

  lemma OneHeaderArrives(b: Broker, f: Frame)
    requires Named(f.command) && Ascii(f.command) && f.body == "" && |f.headers| == 1
    requires Ascii(f.headers[0].0) && Ascii(f.headers[0].1) && AllReadable(f.headers)
    ensures HandlePayload(b, Wire(f)) == Brokers.OnFrame(b, f.command, Parsed(Dictionary(f.headers, map[]), ""))
  {
    assert f.headers == [f.headers[0]];
    OneHeader(f.headers[0]);
    AsciiHeader(f.headers[0]);
    HeardFrameAs(f, f.command, f.headers);
    NoBody(f.command, f.headers);
    var p := Parsed(Dictionary(f.headers, map[]), "");
    assert [(f.command, p)][1..] == [];
    assert OnFrames(b, [(f.command, p)]) == OnFrames(Brokers.OnFrame(b, f.command, p), []);
  }

  lemma ReceiptAscii()
    ensures Ascii("receipt") && Ascii("disconnect-receipt") && Ascii("DISCONNECT")
    ensures Readable(("receipt", "disconnect-receipt"))
  {
  }

  /** The client's DISCONNECT ends the session for the broker, and does nothing else. */
  lemma DisconnectArrives(b: Broker)
    ensures HandlePayload(b, Wire(DISCONNECT_FRAME)) == b.(connected := false)
  {
    ReceiptAscii();
    PlainDisconnect();
    StripNothing("DISCONNECT");
    OneHeaderArrives(b, DISCONNECT_FRAME);
  }

  /** STOMP is CONNECT by another name; a command the broker does not know does nothing. */
  lemma OtherCommands(b: Broker, command: string, headers: Headers)
    requires Named(command) && headers != [] && AllReadable(headers)
    ensures command == "STOMP" || command == "CONNECT" ==>
      HandleRaw(b, Wire(Frame(command, headers, ""))) == b.(connected := true, sent := b.sent + [CONNECTED_TEXT])
    ensures command !in {"STOMP", "CONNECT", "SUBSCRIBE", "UNSUBSCRIBE", "SEND", "DISCONNECT"} ==>
      HandleRaw(b, Wire(Frame(command, headers, ""))) == b
  {
    CommandRead(b, command, headers);
  }

  /** A SUBSCRIBE without an id counts as id 0. */
  lemma NoIdIsZero(b: Broker, destination: string)
    requires Plain(destination)
    ensures HandleRaw(b, Wire(Frame("SUBSCRIBE", [("destination", destination)], "")))
         == b.(subscriptions := Assign(b.subscriptions, "0", destination),
               playing := b.playing || destination == "/topic/game")
  {
    var h := [("destination", destination)];
    StripNothing("SUBSCRIBE");
    StripNothing("destination");
    assert h[1..] == [];
    CommandRead(b, "SUBSCRIBE", h);
  }

  // ---- The answer

  const ANSWER :=
    Frame("CONNECTED", [("version", "1.2"), ("session", "ping-pong-game-001"),
                        ("server", SERVER), ("heart-beat", "10000,10000")], "")

  lemma FourLines(h: Headers)
    requires |h| == 4
    ensures HeaderLines(h) == Line(h[0]) + Line(h[1]) + Line(h[2]) + Line(h[3])
  {
    assert h == [h[0]] + [h[1]] + [h[2]] + [h[3]];
    HeaderLinesSnoc([h[0]] + [h[1]] + [h[2]], h[3]);
    HeaderLinesSnoc([h[0]] + [h[1]], h[2]);
    HeaderLinesSnoc([h[0]], h[1]);
    assert [h[0]][1..] == [] && HeaderLines([h[0]]) == Line(h[0]) + HeaderLines([]);
  }

  lemma VersionLine()
    ensures Line(("version", "1.2")) == "version:1.2\n" && Ascii("version:1.2\n") && CleanHeader(("version", "1.2"))
  {
  }

  lemma SessionLine()
    ensures Line(("session", "ping-pong-game-001")) == "session:ping-pong-game-001\n"
    ensures Ascii("session:ping-pong-game-001\n")
  {
  }

  lemma ServerLine()
    ensures Line(("server", SERVER)) == SERVER_LINE
  {
    assert "server" + ":" == "server:";
  }

  lemma ServerAscii()
    ensures Ascii(SERVER_LINE)
  {
    JoinAscii("server:", SERVER);
    JoinAscii("server:" + SERVER, "\n");
  }

  lemma HeartBeatLine()
    ensures Line(("heart-beat", "10000,10000")) == "heart-beat:10000,10000\n"
    ensures Ascii("heart-beat:10000,10000\n")
  {
  }

  lemma Rejoin(a: string, b: string, c: string, d: string, e: string, f: string, g: string)
    ensures a + b + c + d + e + f + g == a + (b + c + d + e) + f + "" + g
  {
  }

  /** The text of the answer is that frame, serialized. */
  lemma AnswerText()
    ensures Wire(ANSWER) == CONNECTED_TEXT
  {
    FourLines(ANSWER.headers);
    VersionLine();
    SessionLine();
    ServerLine();
    HeartBeatLine();
    assert "CONNECTED" + "\n" == "CONNECTED\n";
    Rejoin("CONNECTED\n", "version:1.2\n", "session:ping-pong-game-001\n", SERVER_LINE,
           "heart-beat:10000,10000\n", "\n", "\0");
  }

  lemma JoinAscii(a: string, b: string)
    requires Ascii(a) && Ascii(b)
    ensures Ascii(a + b)
  {
  }

  lemma AnswerAscii()
    ensures Ascii(CONNECTED_TEXT)
  {
    VersionLine();
    SessionLine();
    ServerAscii();
    HeartBeatLine();
    JoinAscii("CONNECTED\n", "version:1.2\n");
    JoinAscii("CONNECTED\n" + "version:1.2\n", "session:ping-pong-game-001\n");
    var three := "CONNECTED\n" + "version:1.2\n" + "session:ping-pong-game-001\n";
    JoinAscii(three, SERVER_LINE);
    JoinAscii(three + SERVER_LINE, "heart-beat:10000,10000\n");
  }

  lemma SessionClean()
    ensures CleanHeader(("session", "ping-pong-game-001")) && CleanHeader(("heart-beat", "10000,10000"))
  {
  }

  lemma ServerClean()
    ensures CleanHeader(("server", SERVER))
  {
  }

  lemma NoLength(h: Headers)
    requires |h| == 4 && h[0].0 == "version" && h[1].0 == "session" && h[2].0 == "server" && h[3].0 == "heart-beat"
    ensures First(h, CONTENT_LENGTH) == None
  {
  }

  lemma AnswerWellFormed()
    ensures WellFormed(ANSWER)
  {
    VersionLine();
    SessionClean();
    ServerClean();
    NoLength(ANSWER.headers);
  }

  /** The client reads the answer and is connected. */
  lemma AnswerRead(c: Client)
    ensures Run(Between, Utf8(CONNECTED_TEXT)) == Out(Between, [Received(ANSWER)])
    ensures OnEvents(c, [Received(ANSWER)]) == (c.(connected := true), [OnConnected(ANSWER)])
  {
    AnswerAscii();
    Utf8Ascii(CONNECTED_TEXT);
    AnswerText();
    AnswerWellFormed();
    FrameRoundTrip(ANSWER);
    OneFrame(c, ANSWER);
  }

  lemma OneFrame(c: Client, f: Frame)
    requires f.command == "CONNECTED"
    ensures OnEvents(c, [Received(f)]) == (c.(connected := true), [OnConnected(f)])
  {
    assert [Received(f)][..0] == [];
    assert OnEvents(c, []) == (c, []) && [] + [OnConnected(f)] == [OnConnected(f)];
    assert OnEvent(c, Received(f)) == (c.(connected := true), [OnConnected(f)]);
  }

  const NEW_BROKER := Broker([], false, false, [], [])

  /** From a new client and a new broker, CONNECT and its answer lead to the world in
      which the runs of subscribe and unsubscribe start. */
  lemma ConnectedWorldReached(c: Config)
    requires CleanConfig(c)
    ensures HandlePayload(NEW_BROKER, Wire(ConnectFrame(Utf8Config(c)))) == CONNECTED_WORLD.broker
    ensures OnEvents(NEW_CLIENT, Run(Between, Utf8(CONNECTED_TEXT)).events).0 == CONNECTED_WORLD.client
  {
    ConnectAnswered(NEW_BROKER, c);
    AnswerRead(NEW_CLIENT);
    assert [] + [CONNECTED_TEXT] == [CONNECTED_TEXT];
  }
}
