// Publish/subscribe end to end: the client's SUBSCRIBE and UNSUBSCRIBE texts through
// the broker's reader, and a broadcast back through the client's parser to the
// handlers (src/StompClient.cpp, examples/server/stomp_server.py). Destinations,
// headers and payloads are texts; the client is called with their UTF-8 bytes, and the
// broker reads and writes the texts.
module PubSub {
  import opened Prelude
  import opened StompFrames
  import opened StompScanner
  import opened StompRoundTrip
  import opened StompClients
  import opened Brokers
  import opened TextFrames
  import opened Unicode
  import Decimal

  // ---- The broker reads what the client wrote

  predicate OneLine(s: string) { '\n' !in s && '\0' !in s }

  /** Text that survives the broker's strip(). */
  predicate Plain(s: string) { OneLine(s) && Strip(s) == s }

  predicate Readable(h: (string, string)) { ':' !in h.0 && OneLine(h.0) && OneLine(h.1) }

  /** The dictionary the broker builds from a header list. */
  function Dictionary(headers: Headers, d: map<string, string>): (r: map<string, string>)
    decreases |headers|
  {
    if headers == [] then d
    else Dictionary(headers[1..], d[Strip(headers[0].0) := Strip(headers[0].1)])
  }

  function Texts(headers: Headers): (lines: seq<string>) {
    if headers == [] then [] else [headers[0].0 + [':'] + headers[0].1] + Texts(headers[1..])
  }

  lemma {:induction false} SplitHeaderLines(headers: Headers, last: string)
    requires forall i :: 0 <= i < |headers| ==> Readable(headers[i])
    requires '\n' !in last
    ensures Split(HeaderLines(headers) + last, '\n') == Texts(headers) + [last]
    decreases |headers|
  {
    if headers == [] {
      assert HeaderLines(headers) + last == last;
    } else {
      var line := headers[0].0 + [':'] + headers[0].1;
      var rest := HeaderLines(headers[1..]) + last;
      assert HeaderLines(headers) + last == line + ['\n'] + rest;
      SplitAt(line, '\n', rest);
      SplitHeaderLines(headers[1..], last);
    }
  }

  lemma AddLineRead(d: map<string, string>, key: string, value: string)
    requires ':' !in key
    ensures AddLine(d, key + [':'] + value) == d[Strip(key) := Strip(value)]
  {
    FindAfter(key, ':', value);
  }

  lemma OneMoreText(headers: Headers, last: string, d: map<string, string>)
    requires headers != [] && ':' !in headers[0].0
    ensures ReadLines(Texts(headers) + [last], d)
         == ReadLines(Texts(headers[1..]) + [last], d[Strip(headers[0].0) := Strip(headers[0].1)])
  {
    var line := headers[0].0 + [':'] + headers[0].1;
    var lines := Texts(headers) + [last];
    assert lines[1..] == Texts(headers[1..]) + [last];
    AddLineRead(d, headers[0].0, headers[0].1);
    NotBlank(headers[0].0, headers[0].1);
    assert ReadLines(lines, d) == ReadLines(lines[1..], AddLine(d, line));
  }

  lemma NotBlank(key: string, value: string)
    ensures key + [':'] + value != "" && key + [':'] + value != "\r"
  {
    var line := key + [':'] + value;
    assert line[|key|] == ':';
  }

  lemma ReadLast(key: string, value: string, d: map<string, string>)
    requires ':' !in key
    ensures ReadLines([key + [':'] + value], d) == Parsed(Dictionary([(key, value)], d), "")
  {
    var line := key + [':'] + value;
    NotBlank(key, value);
    AddLineRead(d, key, value);
    assert [line][1..] == [] && [(key, value)][1..] == [];
    assert ReadLines([line], d) == ReadLines([], AddLine(d, line));
  }

  lemma {:induction false} ReadTexts(headers: Headers, key: string, value: string, d: map<string, string>)
    requires forall i :: 0 <= i < |headers| ==> Readable(headers[i])
    requires ':' !in key
    ensures ReadLines(Texts(headers) + [key + [':'] + value], d)
         == Parsed(Dictionary(headers + [(key, value)], d), "")
    decreases |headers|
  {
    var last := key + [':'] + value;
    if headers == [] {
      ReadLast(key, value, d);
      assert Texts(headers) + [last] == [last] && headers + [(key, value)] == [(key, value)];
    } else {
      OneMoreText(headers, last, d);
      ReadTexts(headers[1..], key, value, d[Strip(headers[0].0) := Strip(headers[0].1)]);
      assert (headers + [(key, value)])[1..] == headers[1..] + [(key, value)];
    }
  }

  lemma {:induction false} DictionaryStrips(headers: Headers, key: string, value: string, d: map<string, string>)
    ensures Dictionary(headers + [(key, StripRight(value))], d) == Dictionary(headers + [(key, value)], d)
    decreases |headers|
  {
    var a, b := headers + [(key, StripRight(value))], headers + [(key, value)];
    if headers == [] {
      StripAbsorbs(value);
      assert a[1..] == [] && b[1..] == [];
    } else {
      assert a[1..] == headers[1..] + [(key, StripRight(value))] && b[1..] == headers[1..] + [(key, value)];
      DictionaryStrips(headers[1..], key, value, d[Strip(headers[0].0) := Strip(headers[0].1)]);
    }
  }

  lemma StripEnd(value: string)
    ensures StripRight(value + "\n\n") == StripRight(value)
  {
    var s := value + "\n\n";
    assert s[..|s| - 1] == value + "\n";
    assert (value + "\n")[..|value|] == value;
  }

  lemma StripAfter(a: string, value: string)
    requires a != "" && !IsSpace(a[0]) && !IsSpace(a[|a| - 1])
    ensures Strip(a + (value + "\n\n")) == a + StripRight(value)
  {
    StripRightAppend(a, value + "\n\n");
    StripEnd(value);
    assert (a + (value + "\n\n"))[0] == a[0];
    assert StripRight(value) == "" ==> a + StripRight(value) == a;
  }

  /** What strip() leaves of a frame without a body: the blank line and the white
      space after the last header value are gone. */
  lemma StripFrame(front: string, key: string, value: string)
    requires front != "" && !IsSpace(front[0])
    ensures Strip(front + key + [':'] + value + "\n\n") == front + (key + [':'] + StripRight(value))
  {
    var a := front + key + [':'];
    StripAfter(a, value);
    Regroup(a, value, "\n\n");
    Regroup(front, key, [':']);
    Regroup(front, key + [':'], StripRight(value));
  }

  lemma WireText(command: string, init: Headers, key: string, value: string)
    ensures Wire(Frame(command, init + [(key, value)], ""))
         == ((command + "\n" + HeaderLines(init)) + key + [':'] + value + "\n\n") + ['\0'] + ""
  {
    HeaderLinesSnoc(init, (key, value));
    var front := command + "\n" + HeaderLines(init);
    Regroup(command + "\n", HeaderLines(init), Line((key, value)));
    LastLine(front, key, value);
  }

  lemma LastLine(front: string, key: string, value: string)
    ensures front + Line((key, value)) + "\n" + "" + "\0" == (front + key + [':'] + value + "\n\n") + ['\0'] + ""
  {
    Regroup(front, key + ":" + value, "\n");
    Regroup(front, key, ":");
    Regroup(front, key + ":", value);
    Regroup(front + key + ":" + value, "\n", "\n");
  }

  lemma RawText(text: string)
    requires '\0' !in text && Strip(text) != ""
    ensures ReadMessage(text + ['\0'] + "") == [ReadFrame(Strip(text))]
  {
    SplitAt(text, '\0', "");
    SplitWhole("", '\0');
    OnePart(text);
  }

  lemma ReadSplit(text: string, command: string, lines: seq<string>)
    requires Split(text, '\n') == [command] + lines && Strip(command) == command
    ensures ReadFrame(text) == (command, ReadLines(lines, map[]))
  {
    assert ([command] + lines)[1..] == lines;
  }

  lemma LineGrouped(a: string, b: string, c: string)
    ensures (a + "\n" + b) + c == a + ['\n'] + (b + c)
  {
  }

  lemma LineHasNoLf(key: string, end: string)
    requires '\n' !in key && '\n' !in end
    ensures '\n' !in key + [':'] + end
  {
  }

  /** The lines of a stripped frame: the command, the headers, and the last header
      with its right end stripped. */
  lemma SplitFrame(command: string, init: Headers, last: string)
    requires '\n' !in command && '\n' !in last
    requires forall i :: 0 <= i < |init| ==> Readable(init[i])
    ensures Split(command + ['\n'] + (HeaderLines(init) + last), '\n') == [command] + (Texts(init) + [last])
  {
    SplitHeaderLines(init, last);
    SplitAt(command, '\n', HeaderLines(init) + last);
  }

  lemma ReadStripped(text: string, command: string, init: Headers, key: string, value: string)
    requires Strip(command) == command && '\n' !in command
    requires forall i :: 0 <= i < |init| ==> Readable(init[i])
    requires Readable((key, value))
    requires text == (command + "\n" + HeaderLines(init)) + (key + [':'] + StripRight(value))
    ensures ReadFrame(text) == (command, Parsed(Dictionary(init + [(key, value)], map[]), ""))
  {
    StripRightKeeps(value);
    LineHasNoLf(key, StripRight(value));
    SplitFrame(command, init, key + [':'] + StripRight(value));
    LineGrouped(command, HeaderLines(init), key + [':'] + StripRight(value));
    ReadSplit(text, command, Texts(init) + [key + [':'] + StripRight(value)]);
    ReadTexts(init, key, StripRight(value), map[]);
    DictionaryStrips(init, key, value, map[]);
  }

  /** The broker reads a frame without a body exactly as its header list says. */
  lemma BrokerReads(command: string, headers: Headers, init: Headers, key: string, value: string)
    requires command != "" && Plain(command) && !IsSpace(command[0])
    requires headers == init + [(key, value)]
    requires Readable((key, value)) && forall i :: 0 <= i < |init| ==> Readable(init[i])
    ensures ReadMessage(Wire(Frame(command, headers, ""))) == [(command, Parsed(Dictionary(headers, map[]), ""))]
  {
    var front := command + "\n" + HeaderLines(init);
    var text := front + key + [':'] + value + "\n\n";
    WireText(command, init, key, value);
    TextHasNoNul(command, init, key, value);
    StripFrame(front, key, value);
    RawText(text);
    ReadStripped(front + (key + [':'] + StripRight(value)), command, init, key, value);
  }

  lemma TextHasNoNul(command: string, init: Headers, key: string, value: string)
    requires '\0' !in command && Readable((key, value))
    requires forall i :: 0 <= i < |init| ==> Readable(init[i])
    ensures '\0' !in (command + "\n" + HeaderLines(init)) + key + [':'] + value + "\n\n"
  {
    NoNul(init);
  }

  lemma OnePart(text: string)
    requires Strip(text) != ""
    ensures ReadParts([text] + [""]) == [ReadFrame(Strip(text))]
  {
    var parts := [text] + [""];
    assert parts[1..] == [""] && [""][1..] == [];
    assert Strip("") == "";
    assert ReadParts([""]) == [] + ReadParts([""][1..]) == [];
  }

  lemma StripRightKeeps(s: string)
    requires OneLine(s)
    ensures OneLine(StripRight(s))
  {
  }

  lemma {:induction false} NoNul(headers: Headers)
    requires forall i :: 0 <= i < |headers| ==> Readable(headers[i])
    ensures '\0' !in HeaderLines(headers)
    decreases |headers|
  {
    if headers != [] {
      NoNul(headers[1..]);
    }
  }

  lemma {:induction false} DictionaryOther(headers: Headers, d: map<string, string>, key: string)
    requires forall i :: 0 <= i < |headers| ==> Strip(headers[i].0) != key
    ensures Get(Dictionary(headers, d), key, "") == Get(d, key, "")
    ensures key in Dictionary(headers, d) <==> key in d
    decreases |headers|
  {
    if headers != [] {
      DictionaryOther(headers[1..], d[Strip(headers[0].0) := Strip(headers[0].1)], key);
    }
  }

  /** Extra headers that do not override `id` or `destination` for the broker. */
  predicate Harmless(extra: Headers) {
    forall i :: 0 <= i < |extra| ==>
      Readable(extra[i]) && Strip(extra[i].0) != "id" && Strip(extra[i].0) != "destination"
  }

  lemma {:induction false} AssignAllKeeps(headers: Headers, n: nat, extra: Headers)
    requires n <= |headers|
    requires forall i, j :: 0 <= i < |extra| && 0 <= j < n ==> extra[i].0 != headers[j].0
    ensures |AssignAll(headers, extra)| >= n && AssignAll(headers, extra)[..n] == headers[..n]
    ensures forall k :: n <= k < |AssignAll(headers, extra)| ==>
      AssignAll(headers, extra)[k] in headers[n..] || AssignAll(headers, extra)[k] in extra
    decreases |extra|
  {
    if extra != [] {
      AssignKeepsFront(headers, n, extra[0].0, extra[0].1);
      var next := Assign(headers, extra[0].0, extra[0].1);
      assert next[..n] == headers[..n];
      assert forall j :: 0 <= j < n ==> next[j] == next[..n][j] == headers[..n][j] == headers[j];
      AssignAllKeeps(next, n, extra[1..]);
      assert extra[0] in extra;
    }
  }

  lemma {:induction false} AssignKeepsFront(headers: Headers, n: nat, key: string, value: string)
    requires n <= |headers|
    requires forall j :: 0 <= j < n ==> headers[j].0 != key
    ensures |Assign(headers, key, value)| >= n && Assign(headers, key, value)[..n] == headers[..n]
    ensures forall h :: h in Assign(headers, key, value)[n..] ==> h in headers[n..] || h == (key, value)
    decreases n
  {
    if n > 0 {
      AssignKeepsFront(headers[1..], n - 1, key, value);
      var r := Assign(headers, key, value);
      assert r == [headers[0]] + Assign(headers[1..], key, value);
      assert r[n..] == Assign(headers[1..], key, value)[n - 1..] && headers[n..] == headers[1..][n - 1..];
      assert r[..n] == [headers[0]] + Assign(headers[1..], key, value)[..n - 1];
    } else {
      assert Assign(headers, key, value)[0..] == Assign(headers, key, value) && headers[0..] == headers;
      forall h | h in Assign(headers, key, value) ensures h in headers || h == (key, value) {
        AssignFrom(headers, key, value, h);
      }
    }
  }

  lemma {:induction false} ReadableAfterAll(base: Headers, extra: Headers, i: nat)
    requires forall k :: 0 <= k < |base| ==> Readable(base[k])
    requires Harmless(extra)
    requires i < |AssignAll(base, extra)|
    ensures Readable(AssignAll(base, extra)[i])
  {
    AssignAllFrom(base, extra, i);
  }

  /** The keys of a header list the broker's dictionary gets from elsewhere. */
  lemma {:induction false} DictionaryOfTwo(headers: Headers, id: string, destination: string)
    requires |headers| >= 2 && headers[0] == ("id", id) && headers[1] == ("destination", destination)
    requires forall i :: 2 <= i < |headers| ==> Strip(headers[i].0) != "id" && Strip(headers[i].0) != "destination"
    ensures "id" in Dictionary(headers, map[]) && Dictionary(headers, map[])["id"] == Strip(id)
    ensures "destination" in Dictionary(headers, map[])
    ensures Dictionary(headers, map[])["destination"] == Strip(destination)
  {
    assert Strip("id") == "id" && Strip("destination") == "destination";
    var d := map["id" := Strip(id)]["destination" := Strip(destination)];
    var rest := headers[2..];
    assert headers[1..][1..] == rest && headers[1..][0] == headers[1];
    assert Dictionary(headers, map[]) == Dictionary(headers[1..], map["id" := Strip(id)]) == Dictionary(rest, d);
    assert forall i :: 0 <= i < |rest| ==> rest[i] == headers[i + 2];
    DictionaryOther(rest, d, "id");
    DictionaryOther(rest, d, "destination");
  }

  lemma SubscribeHeaders(id: string, destination: string, extra: Headers)
    requires Harmless(extra)
    ensures var h := SubscribeFrame(id, destination, extra).headers;
      && |h| >= 2 && h[0] == ("id", id) && h[1] == ("destination", destination)
      && forall i :: 2 <= i < |h| ==> Strip(h[i].0) != "id" && Strip(h[i].0) != "destination"
  {
    var base := [("id", id), ("destination", destination)];
    assert Strip("id") == "id" && Strip("destination") == "destination";
    AssignAllKeeps(base, 2, extra);
    var h := AssignAll(base, extra);
    assert h[0] == h[..2][0] && h[1] == h[..2][1];
    assert base[2..] == [];
  }

  lemma {:induction false} StripNothing(s: string)
    requires s != "" && !IsSpace(s[0]) && !IsSpace(s[|s| - 1])
    ensures Strip(s) == s
  {
  }

  lemma SubscribeReads(id: string, destination: string, extra: Headers)
    requires Plain(id) && Plain(destination) && Harmless(extra)
    ensures var h := SubscribeFrame(id, destination, extra).headers;
      ReadMessage(Wire(SubscribeFrame(id, destination, extra))) == [("SUBSCRIBE", Parsed(Dictionary(h, map[]), ""))]
  {
    var h := SubscribeFrame(id, destination, extra).headers;
    SubscribeHeaders(id, destination, extra);
    var k := |h| - 1;
    forall i | 0 <= i < |h| ensures Readable(h[i]) {
      ReadableAfterAll([("id", id), ("destination", destination)], extra, i);
    }
    assert h == h[..k] + [(h[k].0, h[k].1)];
    PlainCommands();
    BrokerReads("SUBSCRIBE", h, h[..k], h[k].0, h[k].1);
  }

  lemma PlainCommands()
    ensures Plain("SUBSCRIBE") && Plain("UNSUBSCRIBE")
  {
    StripNothing("SUBSCRIBE");
    StripNothing("UNSUBSCRIBE");
  }

  lemma OneSubscribe(b: Broker, headers: map<string, string>, id: string, destination: string)
    requires "id" in headers && headers["id"] == id && "destination" in headers && headers["destination"] == destination
    ensures OnFrames(b, [("SUBSCRIBE", Parsed(headers, ""))])
         == b.(subscriptions := Assign(b.subscriptions, id, destination),
               playing := b.playing || destination == "/topic/game")
  {
    assert [("SUBSCRIBE", Parsed(headers, ""))][1..] == [];
  }

  /** A subscribe of the client sets exactly that id to that destination in the
      broker's table. */
  lemma SubscribeEffect(b: Broker, id: string, destination: string, extra: Headers)
    requires Plain(id) && Plain(destination) && Harmless(extra)
    ensures HandleRaw(b, Wire(SubscribeFrame(id, destination, extra)))
         == b.(subscriptions := Assign(b.subscriptions, id, destination),
               playing := b.playing || destination == "/topic/game")
  {
    var h := SubscribeFrame(id, destination, extra).headers;
    SubscribeHeaders(id, destination, extra);
    SubscribeReads(id, destination, extra);
    DictionaryOfTwo(h, id, destination);
    OneSubscribe(b, Dictionary(h, map[]), id, destination);
  }

  lemma UnsubscribeReads(id: string)
    requires Plain(id)
    ensures ReadMessage(Wire(UnsubscribeFrame(id))) == [("UNSUBSCRIBE", Parsed(map["id" := id], ""))]
  {
    var h := [("id", id)];
    assert h == [] + [("id", id)];
    PlainCommands();
    BrokerReads("UNSUBSCRIBE", h, [], "id", id);
    StripNothing("id");
    assert h[1..] == [];
    assert Dictionary(h, map[]) == Dictionary([], map["id" := id]);
  }

  lemma UnsubscribeEffect(b: Broker, id: string)
    requires Plain(id)
    ensures HandleRaw(b, Wire(UnsubscribeFrame(id))) == b.(subscriptions := Without(b.subscriptions, id))
  {
    UnsubscribeReads(id);
    OneUnsubscribe(b, map["id" := id], id);
  }

  lemma OneUnsubscribe(b: Broker, headers: map<string, string>, id: string)
    requires "id" in headers && headers["id"] == id
    ensures OnFrames(b, [("UNSUBSCRIBE", Parsed(headers, ""))]) == b.(subscriptions := Without(b.subscriptions, id))
  {
    assert [("UNSUBSCRIBE", Parsed(headers, ""))][1..] == [];
  }

  // ---- The client's bytes are the broker's texts

  /** An id: plain, and the same as text and as bytes. */
  predicate PlainId(id: string) { Plain(id) && Ascii(id) }

  /** Bytes that encode a text are heard as that text. */
  lemma HeardAs(b: Broker, text: string)
    ensures Heard(Utf8(text)) == Some(ReadMessage(text)) && HandlePayload(b, Utf8(text)) == HandleRaw(b, text)
  {
    Unicode.RoundTrip(text);
  }

  lemma SubscribeBase(base: Headers, id: string, destination: string)
    requires |base| == 2 && base[0].1 == id && base[1].1 == destination
    requires Ascii(base[0].0) && Ascii(base[1].0) && Ascii(id)
    ensures Utf8Headers(base) == [(base[0].0, id), (base[1].0, Utf8(destination))]
  {
    AsciiKeys(base);
  }

  lemma TwoHeaderBytes(command: string, k0: string, k1: string, id: string, destination: string, extra: Headers)
    requires Ascii(command) && Ascii(k0) && Ascii(k1) && Ascii(id)
    ensures BytesOf(Frame(command, AssignAll([(k0, id), (k1, destination)], extra), ""))
         == Frame(command, AssignAll([(k0, id), (k1, Utf8(destination))], Utf8Headers(extra)), "")
  {
    var base := [(k0, id), (k1, destination)];
    SubscribeBase(base, id, destination);
    BytesOfUpdated(command, base, extra, "", [(k0, id), (k1, Utf8(destination))]);
  }

  lemma SubscribeBytes(id: string, destination: string, extra: Headers)
    requires Ascii(id)
    ensures SubscribeFrame(id, Utf8(destination), Utf8Headers(extra)) == BytesOf(SubscribeFrame(id, destination, extra))
  {
    TwoHeaderBytes("SUBSCRIBE", "id", "destination", id, destination, extra);
  }

  lemma UnsubscribeBytes(id: string)
    requires Ascii(id)
    ensures UnsubscribeFrame(id) == BytesOf(UnsubscribeFrame(id))
  {
    AsciiKeys([("id", id)]);
    AsciiCommand("UNSUBSCRIBE", [("id", id)], "");
  }

  /** A subscribe of the client, called with the bytes of a destination and of extra
      headers, sets exactly that id to that destination in the broker's table. */
  lemma SubscribeArrives(b: Broker, id: string, destination: string, extra: Headers)
    requires PlainId(id) && Plain(destination) && Harmless(extra)
    ensures HandlePayload(b, Wire(SubscribeFrame(id, Utf8(destination), Utf8Headers(extra))))
         == b.(subscriptions := Assign(b.subscriptions, id, destination),
               playing := b.playing || destination == "/topic/game")
  {
    SubscribeBytes(id, destination, extra);
    Utf8Wire(SubscribeFrame(id, destination, extra));
    HeardAs(b, Wire(SubscribeFrame(id, destination, extra)));
    SubscribeEffect(b, id, destination, extra);
  }

  lemma UnsubscribeArrives(b: Broker, id: string)
    requires PlainId(id)
    ensures HandlePayload(b, Wire(UnsubscribeFrame(id))) == b.(subscriptions := Without(b.subscriptions, id))
  {
    UnsubscribeBytes(id);
    Utf8Wire(UnsubscribeFrame(id));
    HeardAs(b, Wire(UnsubscribeFrame(id)));
    UnsubscribeEffect(b, id);
  }

  // ---- Runs of subscribe and unsubscribe

  // destination and extra: the texts whose bytes the client is called with.
  datatype PubOp = Sub(destination: string, handler: Handler, extra: Headers) | Unsub(n: nat)

  // ids: what subscribe returned, in order; destinations: of the latest subscribe of each id.
  datatype World = World(client: Client, broker: Broker, ids: seq<string>, destinations: map<string, string>)

  function StepWorld(w: World, op: PubOp): (r: World) {
    match op
    case Sub(destination, handler, extra) =>
      var id := SubId(w.client.nextSubId);
      World(Subscribed(w.client, handler),
            HandlePayload(w.broker, Wire(SubscribeFrame(id, Utf8(destination), Utf8Headers(extra)))),
            w.ids + [id], w.destinations[id := destination])
    case Unsub(n) =>
      // Only ids that subscribe returned are given up.
      if n < |w.ids| then
        w.(client := Unsubscribed(w.client, w.ids[n]),
           broker := HandlePayload(w.broker, Wire(UnsubscribeFrame(w.ids[n]))))
      else w
  }

  function RunWorld(w: World, ops: seq<PubOp>): (r: World) {
    if ops == [] then w else StepWorld(RunWorld(w, ops[..|ops| - 1]), ops[|ops| - 1])
  }

  /** A new client whose CONNECT the broker has answered, and which has read the answer. */
  const CONNECTED_WORLD :=
    World(NEW_CLIENT.(connected := true), Broker([], true, false, [], [CONNECTED_TEXT]), [], map[])

  predicate CleanOp(op: PubOp) { op.Sub? ==> Plain(op.destination) && Harmless(op.extra) }

  predicate Agrees(w: World, id: string) {
    if id in w.client.subscriptions then
      id in w.destinations && First(w.broker.subscriptions, id) == Some(w.destinations[id])
    else First(w.broker.subscriptions, id) == None
  }

  ghost predicate Coupled(w: World) {
    && w.broker.connected
    && (forall id :: Agrees(w, id))
    && UniqueKeys(w.broker.subscriptions)
    && (forall i :: 0 <= i < |w.ids| ==> PlainId(w.ids[i]))
  }

  lemma SubIdPlain(n: nat)
    ensures PlainId(SubId(n))
  {
    var d := Decimal.Print(n);
    var id := SubId(n);
    assert forall i :: 0 <= i < |d| ==> Decimal.IsDigit(d[i]);
    assert forall i :: 4 <= i < |id| ==> id[i] == d[i - 4];
    assert id[0] == 's';
    StripNothing(id);
  }

  lemma {:induction false} WithoutFirst(table: Headers, id: string, k: string)
    ensures First(Without(table, id), k) == if k == id then None else First(table, k)
    ensures forall h :: h in Without(table, id) ==> h in table
  {
    if table != [] {
      WithoutFirst(table[1..], id, k);
      if table[0].0 != id {
        assert Without(table, id)[1..] == Without(table[1..], id);
      }
    }
  }

  lemma {:induction false} WithoutUnique(table: Headers, id: string)
    requires UniqueKeys(table)
    ensures UniqueKeys(Without(table, id))
  {
    if table != [] {
      WithoutUnique(table[1..], id);
      WithoutFirst(table[1..], id, id);
      var rest := Without(table[1..], id);
      forall j | 0 <= j < |rest| ensures rest[j].0 != table[0].0 {
        assert rest[j] in table[1..];
      }
    }
  }

  lemma StepCoupled(w: World, op: PubOp)
    requires Coupled(w) && CleanOp(op)
    ensures Coupled(StepWorld(w, op))
  {
    var r := StepWorld(w, op);
    var table := w.broker.subscriptions;
    if op.Sub? {
      var id := SubId(w.client.nextSubId);
      SubIdPlain(w.client.nextSubId);
      SubscribeArrives(w.broker, id, op.destination, op.extra);
      AssignUnique(table, id, op.destination);
      forall k ensures Agrees(r, k) {
        assert Agrees(w, k);
        AssignFirst(table, id, op.destination, k);
      }
    } else if op.n < |w.ids| {
      UnsubscribeArrives(w.broker, w.ids[op.n]);
      WithoutUnique(table, w.ids[op.n]);
      forall k ensures Agrees(r, k) {
        assert Agrees(w, k);
        WithoutFirst(table, w.ids[op.n], k);
      }
    }
  }

  /** After any run the broker's table holds exactly the client's live ids, each once
      and with its destination. */
  lemma {:induction false} TablesAgree(ops: seq<PubOp>)
    requires forall i :: 0 <= i < |ops| ==> CleanOp(ops[i])
    ensures Coupled(RunWorld(CONNECTED_WORLD, ops))
    decreases |ops|
  {
    if ops == [] {
      forall id ensures Agrees(CONNECTED_WORLD, id) {
      }
    } else {
      TablesAgree(ops[..|ops| - 1]);
      StepCoupled(RunWorld(CONNECTED_WORLD, ops[..|ops| - 1]), ops[|ops| - 1]);
    }
  }

  // ---- Frames take their time

  /** Payloads the broker reads one after the other. */
  function HandleAll(b: Broker, texts: seq<string>): (r: Broker)
    decreases |texts|
  {
    if texts == [] then b else HandleAll(HandlePayload(b, texts[0]), texts[1..])
  }

  lemma {:induction false} HandleAllAppend(b: Broker, texts: seq<string>, more: seq<string>)
    ensures HandleAll(b, texts + more) == HandleAll(HandleAll(b, texts), more)
    decreases |texts|
  {
    if texts == [] {
      assert texts + more == more;
    } else {
      assert (texts + more)[1..] == texts[1..] + more;
      HandleAllAppend(HandlePayload(b, texts[0]), texts[1..], more);
    }
  }

  datatype NetOp = Calls(op: PubOp) | Deliver

  // pipe: the client's frames that the broker has not read yet.
  datatype Network = Network(world: World, pipe: seq<string>)

  /** What a call puts on the wire. */
  function FramesOf(w: World, op: PubOp): (texts: seq<string>) {
    match op
    case Sub(destination, _, extra) =>
      [Wire(SubscribeFrame(SubId(w.client.nextSubId), Utf8(destination), Utf8Headers(extra)))]
    case Unsub(n) => if n < |w.ids| then [Wire(UnsubscribeFrame(w.ids[n]))] else []
  }

  function StepNetwork(n: Network, op: NetOp): (r: Network) {
    match op
    case Calls(call) =>
      Network(StepWorld(n.world, call).(broker := n.world.broker), n.pipe + FramesOf(n.world, call))
    case Deliver =>
      if n.pipe == [] then n
      else Network(n.world.(broker := HandlePayload(n.world.broker, n.pipe[0])), n.pipe[1..])
  }

  function RunNetwork(ops: seq<NetOp>): (n: Network) {
    if ops == [] then Network(CONNECTED_WORLD, []) else StepNetwork(RunNetwork(ops[..|ops| - 1]), ops[|ops| - 1])
  }

  function CallsOf(ops: seq<NetOp>): (calls: seq<PubOp>) {
    if ops == [] then []
    else
      var k := |ops| - 1;
      CallsOf(ops[..k]) + if ops[k].Calls? then [ops[k].op] else []
  }

  /** The world once the broker has read all that is on its way. */
  function Settled(n: Network): (w: World) { n.world.(broker := HandleAll(n.world.broker, n.pipe)) }

  lemma StepSettled(n: Network, op: NetOp)
    ensures Settled(StepNetwork(n, op)) == if op.Calls? then StepWorld(Settled(n), op.op) else Settled(n)
  {
    if op.Calls? {
      var texts, b := FramesOf(n.world, op.op), HandleAll(n.world.broker, n.pipe);
      HandleAllAppend(n.world.broker, n.pipe, texts);
      if texts != [] {
        assert texts[1..] == [];
        assert HandleAll(b, texts) == HandlePayload(b, texts[0]);
      }
    }
  }

  /** However long frames take, once they have arrived the broker's table is the one
      it would have had without delay. */
  lemma {:induction false} DelayChangesNothing(ops: seq<NetOp>)
    ensures Settled(RunNetwork(ops)) == RunWorld(CONNECTED_WORLD, CallsOf(ops))
    ensures RunNetwork(ops).pipe == [] ==> RunNetwork(ops).world == RunWorld(CONNECTED_WORLD, CallsOf(ops))
    decreases |ops|
  {
    if ops != [] {
      var k := |ops| - 1;
      DelayChangesNothing(ops[..k]);
      StepSettled(RunNetwork(ops[..k]), ops[k]);
      var calls := CallsOf(ops[..k]);
      if ops[k].Calls? {
        assert (calls + [ops[k].op])[..|calls|] == calls;
      } else {
        assert calls + [] == calls;
      }
    }
  }

  // ---- A broadcast reaches the handlers

  lemma {:induction false} MatchingExact(table: Headers, destination: string, id: string)
    requires UniqueKeys(table)
    ensures id in Matching(table, destination) <==> First(table, id) == Some(destination)
    decreases |table|
  {
    if table != [] {
      var k := |table| - 1;
      MatchingExact(table[..k], destination, id);
      FirstSnoc(table[..k], table[k], id);
      assert table == table[..k] + [table[k]];
    }
  }

  lemma {:induction false} MatchingDistinct(table: Headers, destination: string)
    requires UniqueKeys(table)
    ensures forall i, j :: 0 <= i < j < |Matching(table, destination)| ==>
      Matching(table, destination)[i] != Matching(table, destination)[j]
    decreases |table|
  {
    if table != [] {
      var k := |table| - 1;
      MatchingDistinct(table[..k], destination);
      MatchingExact(table[..k], destination, table[k].0);
      assert First(table[..k], table[k].0) == None;
    }
  }

  lemma {:induction false} FirstSnoc(table: Headers, row: (string, string), id: string)
    requires forall i :: 0 <= i < |table| ==> table[i].0 != row.0
    ensures First(table + [row], id) == if row.0 == id then Some(row.1) else First(table, id)
    decreases |table|
  {
    if table != [] {
      assert (table + [row])[1..] == table[1..] + [row];
      FirstSnoc(table[1..], row, id);
    } else {
      assert table + [row] == [row] && [row][1..] == [];
    }
  }

  lemma PlainValue(s: string)
    requires Plain(s)
    ensures '\n' !in s && StripCr(s) == s
  {
    if s != "" && s[|s| - 1] == '\r' {
      StripLeftOfRight(s);
      StripShort(s);
    }
  }

  lemma StripShort(s: string)
    requires s != "" && IsSpace(s[|s| - 1])
    ensures |Strip(s)| < |s|
  {
    StripLeftOfRight(s);
  }

  lemma PlainBytes(t: string)
    requires Plain(t)
    ensures '\n' !in Utf8(t) && StripCr(Utf8(t)) == Utf8(t)
  {
    PlainValue(t);
    Utf8Has(t, '\n');
    if t != "" {
      Utf8Last(t, '\r');
    }
  }

  /** A MESSAGE as the client reads it: bytes throughout. */
  function ClientMessage(destination: string, id: string, messageId: string, payload: string): (f: Frame) {
    Frame("MESSAGE",
          [("destination", destination), ("subscription", id), ("message-id", messageId),
           ("content-type", "application/json"), ("content-length", Decimal.Print(|payload|))], payload)
  }

  lemma PrintIsAscii(n: nat)
    ensures Ascii(Decimal.Print(n))
  {
    var s := Decimal.Print(n);
    assert forall i :: 0 <= i < |s| ==> Decimal.IsDigit(s[i]);
  }

  lemma MessageHeaderBytes(h: Headers)
    requires |h| == 5 && Ascii(h[0].0) && Ascii(h[1].0) && Ascii(h[2].0) && Ascii(h[3].0) && Ascii(h[4].0)
    requires Ascii(h[1].1) && Ascii(h[2].1) && Ascii(h[3].1) && Ascii(h[4].1)
    ensures Utf8Headers(h) == [(h[0].0, Utf8(h[0].1)), h[1], h[2], h[3], h[4]]
  {
    var b := Utf8Headers(h);
    HeadersAt(h);
    AsciiHeader(h[0]);
    AsciiHeader(h[1]);
    AsciiHeader(h[2]);
    AsciiHeader(h[3]);
    AsciiHeader(h[4]);
    assert b == [b[0], b[1], b[2], b[3], b[4]];
  }

  lemma MessageTextsAscii()
    ensures Ascii("MESSAGE") && Ascii("destination") && Ascii("subscription") && Ascii("message-id")
    ensures Ascii("content-type") && Ascii("application/json") && Ascii("content-length")
  {
  }

  /** What the broker's text of a message is on the wire. */
  lemma MessageBytes(destination: string, id: string, messageId: string, payload: string)
    requires Ascii(id) && Ascii(messageId)
    ensures BytesOf(MessageFrame(destination, id, messageId, payload))
         == ClientMessage(Utf8(destination), id, messageId, Utf8(payload))
  {
    var f := MessageFrame(destination, id, messageId, payload);
    MessageTextsAscii();
    PrintIsAscii(|Utf8(payload)|);
    MessageHeaderBytes(f.headers);
    AsciiCommand(f.command, f.headers, f.body);
  }

  lemma MessageFields(destination: string, id: string, messageId: string, payload: string)
    ensures var m := MessageOf(ClientMessage(destination, id, messageId, payload));
      m.destination == destination && m.subscriptionId == id && m.messageId == messageId && m.body == payload
  {
    var h := ClientMessage(destination, id, messageId, payload).headers;
    assert h[0] == ("destination", destination) && h[1..][0] == ("subscription", id);
    assert First(h, "subscription") == First(h[1..], "subscription");
    assert h[1..][1..][0] == ("message-id", messageId);
    assert First(h, "message-id") == First(h[1..], "message-id") == First(h[1..][1..], "message-id");
  }

  lemma CleanMessage(destination: string, id: string, messageId: string, payload: string)
    requires '\n' !in destination && StripCr(destination) == destination && Plain(id)
    requires '\n' !in messageId && StripCr(messageId) == messageId
    ensures CleanHeaders(ClientMessage(destination, id, messageId, payload).headers)
  {
    PlainValue(id);
    PrintIsClean(|payload|);
  }

  lemma MessageIsWellFormed(destination: string, id: string, messageId: string, payload: string)
    requires '\n' !in destination && StripCr(destination) == destination && Plain(id) && |payload| < WORD
    requires '\n' !in messageId && StripCr(messageId) == messageId
    ensures WellFormed(ClientMessage(destination, id, messageId, payload))
  {
    CleanMessage(destination, id, messageId, payload);
    MessageLength(ClientMessage(destination, id, messageId, payload).headers, payload);
  }

  lemma MessageIdClean(round: nat, tag: nat)
    ensures '\n' !in MessageId(round, tag) && StripCr(MessageId(round, tag)) == MessageId(round, tag)
    ensures Ascii(MessageId(round, tag))
  {
    PrintIsAscii(round);
    PrintIsAscii(tag);
    PrintIsClean(round);
    PrintIsClean(tag);
    var s, t := MessageId(round, tag), Decimal.Print(tag);
    assert s[|s| - 1] == t[|t| - 1];
  }

  lemma MessageLength(h: Headers, payload: string)
    requires |h| == 5 && h[0].0 == "destination" && h[1].0 == "subscription" && h[2].0 == "message-id"
    requires h[3].0 == "content-type" && h[4] == ("content-length", Decimal.Print(|payload|)) && |payload| < WORD
    ensures First(h, CONTENT_LENGTH) == Some(Decimal.Print(|payload|))
    ensures Decimal.FromChars(Decimal.Print(|payload|)) == Some(|payload|)
  {
    Decimal.FromCharsOfPrint(|payload|, "");
    assert Decimal.Print(|payload|) + "" == Decimal.Print(|payload|);
    assert First(h[4..], CONTENT_LENGTH) == Some(h[4].1);
    assert h[3..][1..] == h[4..] && h[2..][1..] == h[3..] && h[1..][1..] == h[2..];
    assert First(h[3..], CONTENT_LENGTH) == First(h[4..], CONTENT_LENGTH);
    assert First(h[2..], CONTENT_LENGTH) == First(h[3..], CONTENT_LENGTH);
    assert First(h[1..], CONTENT_LENGTH) == First(h[2..], CONTENT_LENGTH);
  }

  /** The frames of a broadcast as the client gets them, one per matching id. */
  function MessageFrames(ids: seq<string>, destination: string, round: nat, tags: seq<nat>, payload: string)
    : (fs: seq<Frame>)
    requires |tags| == |ids|
    ensures |fs| == |ids|
    ensures forall i :: 0 <= i < |fs| ==>
      fs[i] == BytesOf(MessageFrame(destination, ids[i], MessageId(round, tags[i]), payload))
  {
    seq(|ids|, i requires 0 <= i < |ids| =>
      BytesOf(MessageFrame(destination, ids[i], MessageId(round, tags[i]), payload)))
  }

  function AllReceived(fs: seq<Frame>): (es: seq<Event>)
    ensures |es| == |fs| && forall i :: 0 <= i < |es| ==> es[i] == Received(fs[i])
  {
    seq(|fs|, i requires 0 <= i < |fs| => Received(fs[i]))
  }

  function Wires(fs: seq<Frame>): (ts: seq<string>)
    ensures |ts| == |fs| && forall i :: 0 <= i < |ts| ==> ts[i] == Wire(fs[i])
  {
    seq(|fs|, i requires 0 <= i < |fs| => Wire(fs[i]))
  }

  lemma {:induction false} WiresParsed(fs: seq<Frame>)
    requires forall i :: 0 <= i < |fs| ==> WellFormed(fs[i])
    ensures Run(Between, Flatten(Wires(fs))) == Out(Between, AllReceived(fs))
    decreases |fs|
  {
    if fs == [] {
      assert Wires(fs) == [];
    } else {
      assert Wires(fs)[1..] == Wires(fs[1..]);
      WiresParsed(fs[1..]);
      FrameThen(fs[0], Flatten(Wires(fs[1..])));
      assert AllReceived(fs) == [Received(fs[0])] + AllReceived(fs[1..]);
    }
  }

  lemma {:induction false} HandlersRun(c: Client, ids: seq<string>, fs: seq<Frame>)
    requires |fs| == |ids|
    requires forall i :: 0 <= i < |ids| ==>
      ids[i] in c.subscriptions && fs[i].command == "MESSAGE" && MessageOf(fs[i]).subscriptionId == ids[i]
    ensures OnEvents(c, AllReceived(fs)).0 == c
    ensures |OnEvents(c, AllReceived(fs)).1| == |ids|
    ensures forall i :: 0 <= i < |ids| ==>
      OnEvents(c, AllReceived(fs)).1[i] == Ran(c.subscriptions[ids[i]], MessageOf(fs[i]))
    decreases |fs|
  {
    if fs != [] {
      var k := |fs| - 1;
      HandlersRun(c, ids[..k], fs[..k]);
      assert AllReceived(fs)[..k] == AllReceived(fs[..k]);
    }
  }

  /** A message for the id whose fields are the bytes of the destination and of the
      payload. */
  ghost predicate ServedBy(f: Frame, id: string, destination: string, payload: string) {
    && WellFormed(f) && f.command == "MESSAGE" && MessageOf(f).subscriptionId == id
    && MessageOf(f).destination == Utf8(destination) && MessageOf(f).body == Utf8(payload)
  }

  /** One frame of a broadcast: well formed, and read back with every field intact. */
  lemma BroadcastFrame(destination: string, id: string, round: nat, tag: nat, payload: string)
    requires Plain(destination) && PlainId(id) && |Utf8(payload)| < WORD
    ensures ServedBy(BytesOf(MessageFrame(destination, id, MessageId(round, tag), payload)), id, destination, payload)
  {
    MessageIdClean(round, tag);
    PlainBytes(destination);
    MessageBytes(destination, id, MessageId(round, tag), payload);
    MessageFields(Utf8(destination), id, MessageId(round, tag), Utf8(payload));
    MessageIsWellFormed(Utf8(destination), id, MessageId(round, tag), Utf8(payload));
  }

  lemma BroadcastServes(ids: seq<string>, destination: string, round: nat, tags: seq<nat>, payload: string)
    requires Plain(destination) && |Utf8(payload)| < WORD && |tags| == |ids|
    requires forall i :: 0 <= i < |ids| ==> PlainId(ids[i])
    ensures var fs := MessageFrames(ids, destination, round, tags, payload);
      forall i :: 0 <= i < |ids| ==> ServedBy(fs[i], ids[i], destination, payload)
  {
    var fs := MessageFrames(ids, destination, round, tags, payload);
    forall i | 0 <= i < |ids| ensures ServedBy(fs[i], ids[i], destination, payload) {
      BroadcastFrame(destination, ids[i], round, tags[i], payload);
    }
  }

  predicate LiveAt(w: World, id: string, destination: string) {
    id in w.client.subscriptions && id in w.destinations && w.destinations[id] == destination
  }

  /** The broker sends to exactly the live ids of a destination, each once. */
  lemma BroadcastTargets(ops: seq<PubOp>, destination: string)
    requires forall i :: 0 <= i < |ops| ==> CleanOp(ops[i])
    ensures var w := RunWorld(CONNECTED_WORLD, ops); var ids := Matching(w.broker.subscriptions, destination);
      && (forall id :: id in ids <==> LiveAt(w, id, destination))
      && (forall i, j :: 0 <= i < j < |ids| ==> ids[i] != ids[j])
  {
    var w := RunWorld(CONNECTED_WORLD, ops);
    var ids := Matching(w.broker.subscriptions, destination);
    TablesAgree(ops);
    forall id ensures id in ids <==> LiveAt(w, id, destination) {
      MatchingExact(w.broker.subscriptions, destination, id);
      assert Agrees(w, id);
    }
    MatchingDistinct(w.broker.subscriptions, destination);
  }

  /** A handler call that carries the payload to the subscription's own handler. */
  predicate Reaches(c: Client, call: Callback, id: string, destination: string, payload: string) {
    && id in c.subscriptions && call.Ran? && call.handler == c.subscriptions[id]
    && call.message.subscriptionId == id && call.message.destination == Utf8(destination)
    && call.message.body == Utf8(payload)
  }

  lemma BroadcastRuns(c: Client, ids: seq<string>, fs: seq<Frame>, destination: string, payload: string)
    requires |fs| == |ids|
    requires forall i :: 0 <= i < |ids| ==> ids[i] in c.subscriptions && ServedBy(fs[i], ids[i], destination, payload)
    ensures var parsed := Run(Between, Flatten(Wires(fs))); var calls := OnEvents(c, parsed.events).1;
      && parsed.mode == Between && |calls| == |ids|
      && forall i :: 0 <= i < |ids| ==> Reaches(c, calls[i], ids[i], destination, payload)
  {
    assert forall i :: 0 <= i < |fs| ==> ServedBy(fs[i], ids[i], destination, payload) && WellFormed(fs[i]);
    WiresParsed(fs);
    HandlersRun(c, ids, fs);
  }

  /** End to end: after any run of subscribes and unsubscribes, a broadcast that the
      broker delivers runs, through the client's parser, exactly the live handlers of
      that destination, once each, with the payload's bytes as body. */
  lemma PublishSubscribe(ops: seq<PubOp>, destination: string, payload: string, round: nat, tags: seq<nat>)
    requires forall i :: 0 <= i < |ops| ==> CleanOp(ops[i])
    requires Plain(destination) && |Utf8(payload)| < WORD
    requires |tags| == |Matching(RunWorld(CONNECTED_WORLD, ops).broker.subscriptions, destination)|
    ensures var w := RunWorld(CONNECTED_WORLD, ops); var ids := Matching(w.broker.subscriptions, destination);
      && (forall id :: id in ids <==> LiveAt(w, id, destination))
      && (forall i, j :: 0 <= i < j < |ids| ==> ids[i] != ids[j])
    ensures var w := RunWorld(CONNECTED_WORLD, ops); var ids := Matching(w.broker.subscriptions, destination);
      var parsed := Run(Between, Flatten(Wires(MessageFrames(ids, destination, round, tags, payload))));
      var calls := OnEvents(w.client, parsed.events).1;
      && parsed.mode == Between && |calls| == |ids|
      && forall i :: 0 <= i < |ids| ==> Reaches(w.client, calls[i], ids[i], destination, payload)
  {
    var w := RunWorld(CONNECTED_WORLD, ops);
    var ids := Matching(w.broker.subscriptions, destination);
    BroadcastTargets(ops, destination);
    LiveIdsPlain(ops);
    forall i | 0 <= i < |ids| ensures ids[i] in w.client.subscriptions && PlainId(ids[i]) {
      assert ids[i] in ids;
      assert LiveAt(w, ids[i], destination);
    }
    BroadcastServes(ids, destination, round, tags, payload);
    BroadcastRuns(w.client, ids, MessageFrames(ids, destination, round, tags, payload), destination, payload);
  }

  /** The client's ids are the ones it printed. */
  lemma {:induction false} LiveIdsPlain(ops: seq<PubOp>)
    ensures forall id :: id in RunWorld(CONNECTED_WORLD, ops).client.subscriptions ==> PlainId(id)
    decreases |ops|
  {
    if ops != [] {
      var w := RunWorld(CONNECTED_WORLD, ops[..|ops| - 1]);
      LiveIdsPlain(ops[..|ops| - 1]);
      SubIdPlain(w.client.nextSubId);
    }
  }

  /** The bytes of what the broker writes. */
  function Encoded(texts: seq<string>): (b: seq<string>)
    ensures |b| == |texts| && forall i :: 0 <= i < |b| ==> b[i] == Utf8(texts[i])
  {
    seq(|texts|, i requires 0 <= i < |texts| => Utf8(texts[i]))
  }

  /** What a broadcast writes when no send raises is these frames. */
  lemma BroadcastIsWires(table: Headers, destination: string, round: nat, tags: seq<nat>, payload: string,
                         ok: seq<bool>, out: seq<string>)
    requires Broadcasted(table, destination, round, tags, payload, ok, out) && false !in ok
    ensures |tags| == |Matching(table, destination)|
    ensures Encoded(out) == Wires(MessageFrames(Matching(table, destination), destination, round, tags, payload))
  {
    var ids := Matching(table, destination);
    AllChosen(MessageTexts(ids, destination, round, tags, payload), ok);
    forall i | 0 <= i < |ids|
      ensures Encoded(out)[i] == Wires(MessageFrames(ids, destination, round, tags, payload))[i]
    {
      Utf8Wire(MessageFrame(destination, ids[i], MessageId(round, tags[i]), payload));
    }
  }

  lemma {:induction false} AllChosen(texts: seq<string>, ok: seq<bool>)
    requires |ok| == |texts| && false !in ok
    ensures Chosen(texts, ok) == texts
    decreases |texts|
  {
    if texts != [] {
      var k := |texts| - 1;
      assert ok[k] in ok;
      AllChosen(texts[..k], ok[..k]);
      assert texts == texts[..k] + [texts[k]];
    }
  }
}
