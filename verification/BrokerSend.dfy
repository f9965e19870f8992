// A SEND of the client as the broker reads it (src/StompClient.cpp:146-164,
// examples/server/stomp_server.py:51-75). The client sends bytes in a text frame; the
// broker gets the text they decode to, if any. It does not look at content-length: it
// cuts at every NUL and strips white space at both ends of each part.
module BrokerSends {
  import opened Prelude
  import opened StompFrames
  import opened StompClients
  import opened Brokers
  import opened PubSub
  import opened StompScanner
  import opened StompRoundTrip
  import opened TextFrames
  import opened Unicode
  import Decimal

  lemma JoinMore(first: string, rest: seq<string>)
    requires rest != []
    ensures JoinLines([first] + rest) == first + "\n" + JoinLines(rest)
  {
    assert ([first] + rest)[1..] == rest;
  }

  lemma SplitFirst(s: string, i: nat)
    requires i == Find(s, '\n') < |s|
    ensures Split(s, '\n') == [s[..i]] + Split(s[i + 1..], '\n')
  {
  }

  lemma CutAt(s: string, i: nat)
    requires i < |s| && s[i] == '\n'
    ensures s[..i] + "\n" + s[i + 1..] == s
  {
  }

  lemma {:induction false} JoinSplit(s: string)
    ensures JoinLines(Split(s, '\n')) == s
    decreases |s|
  {
    var i := Find(s, '\n');
    if i < |s| {
      JoinSplit(s[i + 1..]);
      SplitFirst(s, i);
      JoinMore(s[..i], Split(s[i + 1..], '\n'));
      CutAt(s, i);
    }
  }

  /** Header lines, a blank line, and a body of any lines. */
  lemma {:induction false} ReadBlock(headers: Headers, rest: seq<string>, d: map<string, string>)
    requires forall i :: 0 <= i < |headers| ==> Readable(headers[i])
    ensures ReadLines(Texts(headers) + ([""] + rest), d) == Parsed(Dictionary(headers, d), JoinLines(rest))
    decreases |headers|
  {
    var lines := Texts(headers) + ([""] + rest);
    if headers == [] {
      assert lines == [""] + rest && lines[1..] == rest;
    } else {
      var line := headers[0].0 + [':'] + headers[0].1;
      assert lines[1..] == Texts(headers[1..]) + ([""] + rest);
      AddLineRead(d, headers[0].0, headers[0].1);
      NotBlank(headers[0].0, headers[0].1);
      assert ReadLines(lines, d) == ReadLines(lines[1..], AddLine(d, line));
      ReadBlock(headers[1..], rest, d[Strip(headers[0].0) := Strip(headers[0].1)]);
    }
  }

  lemma LineFirst(headers: Headers, tail: string)
    requires headers != []
    ensures HeaderLines(headers) + tail
         == (headers[0].0 + [':'] + headers[0].1) + ['\n'] + (HeaderLines(headers[1..]) + tail)
  {
    var line := headers[0].0 + ":" + headers[0].1;
    assert Line(headers[0]) == line + "\n";
    Regroup(line + "\n", HeaderLines(headers[1..]), tail);
  }

  lemma BlankFirst(body: string)
    ensures Split("\n" + body, '\n') == [""] + Split(body, '\n')
  {
    SplitAt("", '\n', body);
    assert "\n" + body == "" + ['\n'] + body;
  }

  lemma {:induction false} SplitBlock(headers: Headers, body: string)
    requires forall i :: 0 <= i < |headers| ==> Readable(headers[i])
    ensures Split(HeaderLines(headers) + ("\n" + body), '\n') == Texts(headers) + ([""] + Split(body, '\n'))
    decreases |headers|
  {
    BlankFirst(body);
    if headers == [] {
      assert HeaderLines(headers) + ("\n" + body) == "\n" + body;
    } else {
      var line := headers[0].0 + [':'] + headers[0].1;
      LineFirst(headers, "\n" + body);
      SplitAt(line, '\n', HeaderLines(headers[1..]) + ("\n" + body));
      SplitBlock(headers[1..], body);
      TextsFirst(headers, [""] + Split(body, '\n'));
    }
  }

  lemma TextsFirst(headers: Headers, rest: seq<string>)
    requires headers != []
    ensures Texts(headers) + rest == [headers[0].0 + [':'] + headers[0].1] + (Texts(headers[1..]) + rest)
  {
  }

  function Head(command: string, headers: Headers): (s: string) { command + "\n" + HeaderLines(headers) + "\n" }

  lemma HeadText(command: string, lines: string, body: string)
    ensures command + "\n" + lines + "\n" + body == command + ['\n'] + (lines + ("\n" + body))
  {
  }

  /** A frame that keeps its body: the text up to the end of the body. */
  lemma ReadWithBody(command: string, headers: Headers, body: string)
    requires Strip(command) == command && '\n' !in command
    requires forall i :: 0 <= i < |headers| ==> Readable(headers[i])
    ensures ReadFrame(Head(command, headers) + body) == (command, Parsed(Dictionary(headers, map[]), body))
  {
    HeadText(command, HeaderLines(headers), body);
    SplitBlock(headers, body);
    SplitAt(command, '\n', HeaderLines(headers) + ("\n" + body));
    ReadSplit(Head(command, headers) + body, command, Texts(headers) + ([""] + Split(body, '\n')));
    ReadBlock(headers, Split(body, '\n'), map[]);
    JoinSplit(body);
  }

  lemma HeadEnds(command: string, init: Headers, key: string, value: string)
    ensures Head(command, init + [(key, value)])
         == ((command + "\n" + HeaderLines(init)) + key + [':']) + (value + "\n\n")
  {
    HeaderLinesSnoc(init, (key, value));
  }

  lemma StripKeepsHead(head: string, body: string)
    requires head != "" && !IsSpace(head[0]) && StripRight(body) != ""
    ensures Strip(head + body) == head + StripRight(body)
  {
    StripRightAppend(head, body);
    assert (head + body)[0] == head[0];
  }

  lemma StripDropsBody(a: string, value: string, body: string)
    requires a != "" && !IsSpace(a[0]) && !IsSpace(a[|a| - 1]) && StripRight(body) == ""
    ensures Strip(a + (value + "\n\n") + body) == a + StripRight(value)
  {
    StripAfter(a, value);
    var head := a + (value + "\n\n");
    StripRightAppend(head, body);
    assert (head + body)[0] == a[0] && head[0] == a[0];
  }

  /** One part between NULs: the body loses the white space at its right end. */
  lemma ReadPart(command: string, init: Headers, key: string, value: string, body: string)
    requires command != "" && Plain(command) && !IsSpace(command[0])
    requires Readable((key, value)) && forall i :: 0 <= i < |init| ==> Readable(init[i])
    ensures var headers := init + [(key, value)];
      && Strip(Head(command, headers) + body) != ""
      && ReadFrame(Strip(Head(command, headers) + body))
         == (command, Parsed(Dictionary(headers, map[]), StripRight(body)))
  {
    var headers := init + [(key, value)];
    if StripRight(body) != "" {
      StripKeepsHead(Head(command, headers), body);
      ReadWithBody(command, headers, StripRight(body));
    } else {
      var front := command + "\n" + HeaderLines(init);
      HeadEnds(command, init, key, value);
      StripDropsBody(front + key + [':'], value, body);
      Regroup(front, key, [':']);
      Regroup(front, key + [':'], StripRight(value));
      ReadStripped(front + (key + [':'] + StripRight(value)), command, init, key, value);
    }
  }

  lemma HeadHasNoNul(command: string, headers: Headers)
    requires '\0' !in command && forall i :: 0 <= i < |headers| ==> Readable(headers[i])
    ensures '\0' !in Head(command, headers)
  {
    NoNul(headers);
  }

  lemma FirstPart(text: string, rest: string)
    requires '\0' !in text && Strip(text) != ""
    ensures ReadMessage(text + ['\0'] + rest) == [ReadFrame(Strip(text))] + ReadMessage(rest)
  {
    SplitAt(text, '\0', rest);
    var parts := [text] + Split(rest, '\0');
    assert parts[1..] == Split(rest, '\0');
  }

  lemma NothingLeft()
    ensures ReadMessage("") == []
  {
    SplitWhole("", '\0');
    assert Strip("") == "" && [""][1..] == [];
    assert ReadParts([""]) == [] + ReadParts([""][1..]);
  }

  /** What a part leads to, with the text before it and after it. */
  lemma PartThen(command: string, headers: Headers, body: string, rest: string)
    requires command != "" && Plain(command) && !IsSpace(command[0]) && '\0' !in body
    requires headers != [] && forall i :: 0 <= i < |headers| ==> Readable(headers[i])
    ensures ReadMessage(Head(command, headers) + body + ['\0'] + rest)
         == [(command, Parsed(Dictionary(headers, map[]), StripRight(body)))] + ReadMessage(rest)
  {
    var k := |headers| - 1;
    assert headers == headers[..k] + [(headers[k].0, headers[k].1)];
    HeadHasNoNul(command, headers);
    ReadPart(command, headers[..k], headers[k].0, headers[k].1, body);
    FirstPart(Head(command, headers) + body, rest);
  }

  function BeforeNul(body: string): (s: string) { body[..Find(body, '\0')] }

  /** The frames that the text after the first NUL of a body is read as. */
  function AfterNul(body: string): (r: seq<(string, Parsed)>) {
    var i := Find(body, '\0');
    if i < |body| then ReadMessage(body[i + 1..] + "\0") else []
  }

  /** What the broker reads of any frame: the body up to its first NUL, less the white
      space at its right end, and whatever follows the NUL as further frames. */
  lemma BrokerReadsFrame(command: string, headers: Headers, body: string)
    requires command != "" && Plain(command) && !IsSpace(command[0])
    requires headers != [] && forall i :: 0 <= i < |headers| ==> Readable(headers[i])
    ensures ReadMessage(Wire(Frame(command, headers, body)))
         == [(command, Parsed(Dictionary(headers, map[]), StripRight(BeforeNul(body))))] + AfterNul(body)
  {
    var i := Find(body, '\0');
    var rest := if i < |body| then body[i + 1..] + "\0" else "";
    WireCut(command, headers, body, i);
    PartThen(command, headers, body[..i], rest);
    NothingLeft();
  }

  lemma WireCut(command: string, headers: Headers, body: string, i: nat)
    requires i <= |body| && (i < |body| ==> body[i] == '\0')
    ensures Wire(Frame(command, headers, body))
         == Head(command, headers) + body[..i] + ['\0'] + if i < |body| then body[i + 1..] + "\0" else ""
  {
    if i < |body| {
      assert body == body[..i] + ['\0'] + body[i + 1..];
    } else {
      assert body[..i] == body;
    }
  }

  // ---- SEND frames

  predicate AllReadable(extra: Headers) { forall i :: 0 <= i < |extra| ==> Readable(extra[i]) }

  /** The headers of a SEND as text, for a body of so many bytes. */
  function SendHeaders(destination: string, length: nat, extra: Headers): (h: Headers) {
    AssignAll([("destination", destination), ("content-length", Decimal.Print(length))], extra)
  }

  lemma SendReadable(destination: string, length: nat, extra: Headers)
    requires OneLine(destination) && AllReadable(extra)
    ensures SendHeaders(destination, length, extra) != [] && AllReadable(SendHeaders(destination, length, extra))
    ensures Plain("SEND")
  {
    var base := [("destination", destination), ("content-length", Decimal.Print(length))];
    var h := AssignAll(base, extra);
    StripNothing("SEND");
    DigitsReadable(length);
    forall i | 0 <= i < |h| ensures Readable(h[i]) {
      AssignAllFrom(base, extra, i);
    }
    AssignAllLength(base, extra);
  }

  lemma SendBase(base: Headers)
    requires |base| == 2 && Ascii(base[0].0) && Ascii(base[1].0) && Ascii(base[1].1)
    ensures Utf8Headers(base) == [(base[0].0, Utf8(base[0].1)), base[1]]
  {
    AsciiKeys(base);
  }

  /** Encoding the headers of text gives the headers the client sends. */
  lemma SendHeaderBytes(destination: string, body: string, extra: Headers)
    ensures Utf8Headers(SendHeaders(destination, |body|, extra))
         == SendFrame(Utf8(destination), body, Utf8Headers(extra)).headers
  {
    var base := [("destination", destination), ("content-length", Decimal.Print(|body|))];
    PrintIsAscii(|body|);
    SendBase(base);
    Utf8AssignAll(base, extra);
  }

  lemma DigitsReadable(n: nat)
    ensures OneLine(Decimal.Print(n))
  {
    var s := Decimal.Print(n);
    assert forall i :: 0 <= i < |s| ==> Decimal.IsDigit(s[i]);
  }

  lemma {:induction false} AssignAllLength(headers: Headers, extra: Headers)
    ensures |AssignAll(headers, extra)| >= |headers|
    decreases |extra|
  {
    if extra != [] {
      AssignKeys(headers, extra[0].0, extra[0].1);
      AssignAllLength(Assign(headers, extra[0].0, extra[0].1), extra[1..]);
    }
  }

  /** A frame reaches the broker as one frame with its exact body if and only if the
      body has no NUL and no white space at its right end. */
  lemma FrameArrives(command: string, headers: Headers, body: string)
    requires command != "" && Plain(command) && !IsSpace(command[0])
    requires headers != [] && AllReadable(headers)
    ensures (ReadMessage(Wire(Frame(command, headers, body))) == [(command, Parsed(Dictionary(headers, map[]), body))])
       <==> ('\0' !in body && StripRight(body) == body)
  {
    BrokerReadsFrame(command, headers, body);
    var parts := ReadMessage(Wire(Frame(command, headers, body)));
    ExactBody(parts, command, Dictionary(headers, map[]), body, AfterNul(body));
  }

  lemma ExactBody(parts: seq<(string, Parsed)>, command: string, headers: map<string, string>, body: string,
                  more: seq<(string, Parsed)>)
    requires '\0' !in body ==> more == []
    requires parts == [(command, Parsed(headers, StripRight(BeforeNul(body))))] + more
    ensures (parts == [(command, Parsed(headers, body))]) <==> ('\0' !in body && StripRight(body) == body)
  {
    assert parts[0].1.body == StripRight(BeforeNul(body));
    if '\0' !in body {
      assert BeforeNul(body) == body;
    } else {
      assert |StripRight(BeforeNul(body))| < |body|;
    }
  }

  // ---- Bytes of the client, text of the broker

  lemma HeadBytes(command: string, headers: Headers)
    requires Ascii(command)
    ensures Utf8(Head(command, headers)) == Head(command, Utf8Headers(headers))
  {
    Utf8Separator('\n');
    Utf8Ascii(command);
    Utf8Lines(headers);
    Utf8Append(command + "\n" + HeaderLines(headers), "\n");
    Utf8Append(command + "\n", HeaderLines(headers));
    Utf8Append(command, "\n");
  }

  /** What is read of a frame with this body of text, if there is a text. */
  function ReadAs(command: string, headers: Headers, t: Option<string>): (r: Option<seq<(string, Parsed)>>) {
    if t.None? then None else Some(ReadMessage(Wire(Frame(command, headers, t.value))))
  }

  /** A frame whose body is any bytes: the broker hears it exactly when they are UTF-8,
      and then with the text they encode. */
  lemma HeardFrame(command: string, headers: Headers, body: string)
    requires Ascii(command)
    ensures Heard(Wire(Frame(command, Utf8Headers(headers), body))) == ReadAs(command, headers, FromUtf8(body))
  {
    var head := Head(command, headers);
    HeadBytes(command, headers);
    DecodeBehind(head, body + ['\0']);
    DecodeBefore(body, '\0');
    Regroup(Head(command, Utf8Headers(headers)), body, ['\0']);
    var t := FromUtf8(body);
    if t.Some? {
      Regroup(head, t.value, ['\0']);
    }
  }

  lemma HeardFrameAs(f: Frame, command: string, headers: Headers)
    requires Ascii(command) && f.command == command && f.headers == Utf8Headers(headers)
    ensures Heard(Wire(f)) == ReadAs(command, headers, FromUtf8(f.body))
  {
    HeardFrame(command, headers, f.body);
  }

  /** What the client puts into the text frame of a SEND, for the bytes of texts. */
  function SendPayload(destination: string, body: string, extra: Headers): (b: string) {
    Wire(SendFrame(Utf8(destination), body, Utf8Headers(extra)))
  }

  lemma SendAscii()
    ensures Ascii("SEND")
  {
  }

  lemma HeardSend(destination: string, body: string, extra: Headers)
    ensures Heard(SendPayload(destination, body, extra))
         == ReadAs("SEND", SendHeaders(destination, |body|, extra), FromUtf8(body))
  {
    SendAscii();
    SendHeaderBytes(destination, body, extra);
    var f := SendFrame(Utf8(destination), body, Utf8Headers(extra));
    HeardFrameAs(f, "SEND", SendHeaders(destination, |body|, extra));
  }

  /** The broker reads one SEND with the text whose bytes the body is. */
  ghost predicate Arrives(destination: string, body: string, extra: Headers) {
    exists t :: Utf8(t) == body && Heard(SendPayload(destination, body, extra))
      == Some([("SEND", Parsed(Dictionary(SendHeaders(destination, |body|, extra), map[]), t))])
  }

  /** Text that loses nothing on the way: no NUL, and nothing that strip() takes off
      its right end. */
  predicate Kept(t: string) { '\0' !in t && StripRight(t) == t }

  lemma TextArrives(destination: string, t: string, extra: Headers)
    requires OneLine(destination) && AllReadable(extra)
    ensures Heard(SendPayload(destination, Utf8(t), extra))
         == Some(ReadMessage(Wire(Frame("SEND", SendHeaders(destination, |Utf8(t)|, extra), t))))
    ensures (Heard(SendPayload(destination, Utf8(t), extra))
             == Some([("SEND", Parsed(Dictionary(SendHeaders(destination, |Utf8(t)|, extra), map[]), t))])) <==> Kept(t)
  {
    HeardSend(destination, Utf8(t), extra);
    Unicode.RoundTrip(t);
    SendReadable(destination, |Utf8(t)|, extra);
    FrameArrives("SEND", SendHeaders(destination, |Utf8(t)|, extra), t);
  }

  /** Any body, as bytes: the broker reads exactly it if and only if it is UTF-8 and its
      text has no NUL and no white space, of any script, at its right end. */
  lemma SendArrives(destination: string, body: string, extra: Headers)
    requires OneLine(destination) && AllReadable(extra)
    ensures Arrives(destination, body, extra) <==> FromUtf8(body).Some? && Kept(FromUtf8(body).value)
  {
    if FromUtf8(body).Some? {
      var t := FromUtf8(body).value;
      EncodingIsTheOnly(body, t);
      TextArrives(destination, t, extra);
      if Arrives(destination, body, extra) {
        var u :| Utf8(u) == body && Heard(SendPayload(destination, body, extra))
          == Some([("SEND", Parsed(Dictionary(SendHeaders(destination, |body|, extra), map[]), u))]);
        Injective(t, u);
      }
    } else {
      HeardSend(destination, body, extra);
    }
  }

  /** And then the game gets exactly that text for that destination. */
  lemma SendEffect(b: Broker, destination: string, t: string, extra: Headers)
    requires Plain(destination) && AllReadable(extra) && Kept(t)
    requires forall i :: 0 <= i < |extra| ==> Strip(extra[i].0) != "destination"
    ensures HandlePayload(b, SendPayload(destination, Utf8(t), extra)) == b.(inbox := b.inbox + [(destination, t)])
  {
    TextArrives(destination, t, extra);
    SendDestination(destination, |Utf8(t)|, extra);
    OneSend(b, Dictionary(SendHeaders(destination, |Utf8(t)|, extra), map[]), destination, t);
  }

  lemma OneSend(b: Broker, headers: map<string, string>, destination: string, body: string)
    requires "destination" in headers && headers["destination"] == destination
    ensures OnFrames(b, [("SEND", Parsed(headers, body))]) == b.(inbox := b.inbox + [(destination, body)])
  {
    assert [("SEND", Parsed(headers, body))][1..] == [];
  }

  lemma SendDestination(destination: string, length: nat, extra: Headers)
    requires Plain(destination)
    requires forall i :: 0 <= i < |extra| ==> Strip(extra[i].0) != "destination"
    ensures var d := Dictionary(SendHeaders(destination, length, extra), map[]);
      "destination" in d && d["destination"] == destination
  {
    var base := [("destination", destination), ("content-length", Decimal.Print(length))];
    var h := SendHeaders(destination, length, extra);
    StripNothing("destination");
    StripNothing("content-length");
    AssignAllKeeps(base, 1, extra);
    assert h[0] == h[..1][0] && base[1..] == [base[1]];
    var d := map["destination" := destination];
    assert forall i :: 0 <= i < |h[1..]| ==> h[1..][i] == h[i + 1];
    DictionaryOther(h[1..], d, "destination");
    assert Dictionary(h, map[]) == Dictionary(h[1..], d);
  }

  // ---- Bodies that arrive and bodies that do not

  const IDEOGRAPHIC_SPACE: char := '\U{3000}'
  const A_GRAVE: char := '\U{00E0}'

  /** White space of any script at the end is lost. */
  lemma SpaceIsLost(destination: string, extra: Headers)
    requires OneLine(destination) && AllReadable(extra)
    ensures !Arrives(destination, Utf8(['a', IDEOGRAPHIC_SPACE]), extra)
  {
    var t := ['a', IDEOGRAPHIC_SPACE];
    Unicode.RoundTrip(t);
    SendArrives(destination, Utf8(t), extra);
    assert IsSpace(t[|t| - 1]);
    assert StripRight(t) == StripRight(t[..1]);
  }

  /** A letter arrives, whatever its last byte would mean as a character. */
  lemma LetterArrives(destination: string, extra: Headers)
    requires OneLine(destination) && AllReadable(extra)
    ensures Arrives(destination, Utf8([A_GRAVE]), extra)
  {
    Unicode.RoundTrip([A_GRAVE]);
    SendArrives(destination, Utf8([A_GRAVE]), extra);
    assert !IsSpace([A_GRAVE][0]);
  }

  /** Bytes that are no text are not heard at all. */
  lemma NoTextNotHeard(destination: string, extra: Headers)
    ensures Heard(SendPayload(destination, [0xFF as char], extra)) == None
  {
    HeardSend(destination, [0xFF as char], extra);
    assert LeadOf([0xFF as char]) == None;
  }

  const HIDDEN := "hi" + ['\0'] + "DISCONNECT"

  lemma HiddenParts()
    ensures Find(HIDDEN, '\0') == 2 && HIDDEN[..2] == "hi" && HIDDEN[3..] == "DISCONNECT" && |HIDDEN| > 2
    ensures StripRight("hi") == "hi"
  {
    FindAfter("hi", '\0', "DISCONNECT");
  }

  /** A body whose text after a NUL the broker obeys as a second frame. */
  lemma HiddenFrame(b: Broker, destination: string)
    requires OneLine(destination)
    ensures var h := SendHeaders(destination, |Utf8(HIDDEN)|, []);
      && Heard(SendPayload(destination, Utf8(HIDDEN), []))
         == Some([("SEND", Parsed(Dictionary(h, map[]), "hi"))] + [("DISCONNECT", Parsed(map[], ""))])
      && !HandlePayload(b, SendPayload(destination, Utf8(HIDDEN), [])).connected
  {
    var h := SendHeaders(destination, |Utf8(HIDDEN)|, []);
    TextArrives(destination, HIDDEN, []);
    SendReadable(destination, |Utf8(HIDDEN)|, []);
    HiddenRead(h);
    EndsDisconnected(b, Parsed(Dictionary(h, map[]), "hi"));
  }

  lemma HiddenRead(headers: Headers)
    requires headers != [] && AllReadable(headers) && Plain("SEND")
    ensures ReadMessage(Wire(Frame("SEND", headers, HIDDEN)))
         == [("SEND", Parsed(Dictionary(headers, map[]), "hi"))] + [("DISCONNECT", Parsed(map[], ""))]
  {
    BrokerReadsFrame("SEND", headers, HIDDEN);
    HiddenParts();
    PlainDisconnect();
    ReadCommand("DISCONNECT");
  }

  lemma PlainDisconnect()
    ensures OneLine("DISCONNECT") && Strip("DISCONNECT") == "DISCONNECT"
  {
    StripNothing("DISCONNECT");
  }

  lemma ReadCommand(command: string)
    requires OneLine(command) && command != "" && Strip(command) == command
    ensures ReadMessage(command + "\0") == [(command, Parsed(map[], ""))]
  {
    FirstPart(command, "");
    NothingLeft();
    SplitWhole(command, '\n');
    assert command + ['\0'] + "" == command + "\0" && [command][1..] == [];
  }

  lemma EndsDisconnected(b: Broker, p: Parsed)
    ensures !OnFrames(b, [("SEND", p)] + [("DISCONNECT", Parsed(map[], ""))]).connected
  {
    var last := [("DISCONNECT", Parsed(map[], ""))];
    var next := Brokers.OnFrame(b, "SEND", p);
    assert ([("SEND", p)] + last)[1..] == last && last[1..] == [];
    assert OnFrames(b, [("SEND", p)] + last) == OnFrames(next, last);
    assert OnFrames(next, last) == OnFrames(Brokers.OnFrame(next, "DISCONNECT", Parsed(map[], "")), []);
  }
}
