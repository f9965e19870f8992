// Printing and parsing STOMP frames undo each other: StompFrame::serialize against
// StompParser, through the reference automaton.
module StompRoundTrip {
  import opened Prelude
  import opened StompFrames
  import opened StompScanner
  import Decimal

  predicate CleanCommand(command: string) {
    command != "" && '\n' !in command && command[0] != '\r' && command[|command| - 1] != '\r'
  }

  predicate CleanHeader(h: (string, string)) {
    ':' !in h.0 && '\n' !in h.0 && '\n' !in h.1 && StripCr(h.1) == h.1
  }

  predicate CleanHeaders(headers: Headers) {
    forall i :: 0 <= i < |headers| ==> CleanHeader(headers[i])
  }

  /** The body is delimited by what the headers say: by the content-length when
      from_chars reads one, by the first NUL otherwise. */
  predicate CleanBody(f: Frame) {
    var n := ContentLength(f);
    if n.Some? then n.value == |f.body| else '\0' !in f.body
  }

  predicate WellFormed(f: Frame) {
    CleanCommand(f.command) && CleanHeaders(f.headers) && CleanBody(f)
  }

  // What every frame the parser delivers looks like, whatever bytes it was fed.
  predicate Delivered(f: Frame) {
    && f.command != "" && f.command[0] != '\r' && f.command[0] != '\n' && '\n' !in f.command
    && forall i :: 0 <= i < |f.headers| ==> DeliveredHeader(f.headers[i])
  }

  predicate DeliveredHeader(h: (string, string)) {
    ':' !in h.0 && '\n' !in h.0 && '\n' !in h.1
  }

  predicate Deliverable(m: Mode) {
    match m
    case Between => true
    case InCommand(_) => true
    case InHeaders(f, _) => Delivered(f)
    case InCounted(f, _, _) => Delivered(f)
    case InTerminated(f, _) => Delivered(f)
  }

  lemma WithHeaderDelivered(f: Frame, line: string)
    requires Delivered(f) && '\n' !in line
    ensures Delivered(WithHeader(f, StripCr(line)))
  {
  }

  lemma ByteDelivered(m: Mode, c: char)
    requires Proper(m) && Deliverable(m)
    ensures Proper(Byte(m, c).mode) && Deliverable(Byte(m, c).mode)
    ensures forall k :: 0 <= k < |Byte(m, c).events| && Byte(m, c).events[k].Received? ==>
      Delivered(Byte(m, c).events[k].frame)
  {
    if m.InHeaders? {
      WithHeaderDelivered(m.frame, m.line);
    }
  }

  lemma {:induction false} EventsDelivered(m: Mode, s: string, k: nat)
    requires Proper(m) && Deliverable(m)
    requires k < |Run(m, s).events| && Run(m, s).events[k].Received?
    ensures Delivered(Run(m, s).events[k].frame)
    decreases |s|
  {
    var one := Byte(m, s[0]);
    ByteDelivered(m, s[0]);
    if k >= |one.events| {
      EventsDelivered(one.mode, s[1..], k - |one.events|);
    }
  }

  function StripHeaders(headers: Headers): (r: Headers)
    ensures |r| == |headers|
    ensures forall i :: 0 <= i < |r| ==> r[i] == (headers[i].0, StripCr(headers[i].1))
  {
    seq(|headers|, i requires 0 <= i < |headers| => (headers[i].0, StripCr(headers[i].1)))
  }

  lemma StripAfterColon(key: string, value: string)
    ensures StripCr(key + [':'] + value) == key + [':'] + StripCr(value)
  {
  }

  lemma HeaderLineRead(f: Frame, h: (string, string), rest: string)
    requires DeliveredHeader(h)
    ensures Run(InHeaders(f, ""), Line(h) + rest)
         == Run(InHeaders(f.(headers := f.headers + [(h.0, StripCr(h.1))]), ""), rest)
  {
    var line := h.0 + [':'] + h.1;
    assert Line(h) + rest == line + ['\n'] + rest;
    HeaderDone(f, line, rest);
    StripAfterColon(h.0, h.1);
    FindAfter(h.0, ':', StripCr(h.1));
  }

  lemma {:induction false} HeaderLinesRead(f: Frame, headers: Headers, rest: string)
    requires forall i :: 0 <= i < |headers| ==> DeliveredHeader(headers[i])
    ensures Run(InHeaders(f, ""), HeaderLines(headers) + rest)
         == Run(InHeaders(f.(headers := f.headers + StripHeaders(headers)), ""), rest)
    decreases |headers|
  {
    if headers == [] {
      assert f.headers + StripHeaders(headers) == f.headers;
      assert HeaderLines(headers) + rest == rest;
    } else {
      var h := headers[0];
      var g := f.(headers := f.headers + [(h.0, StripCr(h.1))]);
      assert HeaderLines(headers) + rest == Line(h) + (HeaderLines(headers[1..]) + rest);
      HeaderLineRead(f, h, HeaderLines(headers[1..]) + rest);
      HeaderLinesRead(g, headers[1..], rest);
      assert g.headers + StripHeaders(headers[1..]) == f.headers + StripHeaders(headers);
    }
  }

  function Stripped(f: Frame): (r: Frame) {
    Frame(StripCr(f.command), StripHeaders(f.headers), "")
  }

  /** Command and headers are read up to the blank line; one CR at the end of the
      command and of each value is lost on the way. */
  lemma HeadRead(f: Frame, rest: string)
    requires Delivered(f)
    ensures Run(Between, Wire(f) + rest) == Run(AfterHeaders(Stripped(f)), f.body + ['\0'] + rest)
  {
    var tail := f.body + ['\0'] + rest;
    var lines := HeaderLines(f.headers);
    assert Wire(f) + rest == f.command + ['\n'] + (lines + ("\n" + tail));
    CommandDone(f.command, lines + ("\n" + tail));
    HeaderLinesRead(Frame(StripCr(f.command), [], ""), f.headers, "\n" + tail);
    assert [] + StripHeaders(f.headers) == StripHeaders(f.headers);
    assert "\n" + tail == "" + ['\n'] + tail;
    HeaderDone(Stripped(f), "", tail);
  }

  lemma BodyRead(f: Frame, rest: string)
    requires CleanBody(f)
    ensures Run(AfterHeaders(f.(body := "")), f.body + ['\0'] + rest) == Then(Out(Between, [Received(f)]), rest)
  {
    var g := f.(body := "");
    assert ContentLength(g) == ContentLength(f);
    if ContentLength(f).Some? {
      CountedDone(g, f.body, '\0', rest);
    } else {
      TerminatedDone(g, f.body, rest);
    }
  }

  lemma WellFormedIsStripped(f: Frame)
    requires WellFormed(f)
    ensures Delivered(f) && Stripped(f) == f.(body := "")
  {
    assert forall i :: 0 <= i < |f.headers| ==> CleanHeader(f.headers[i]) && DeliveredHeader(f.headers[i]);
    assert StripHeaders(f.headers) == f.headers;
  }

  /** A well-formed frame is read back whole, and what follows it is read as if
      nothing had come before. */
  lemma FrameThen(f: Frame, rest: string)
    requires WellFormed(f)
    ensures Run(Between, Wire(f) + rest) == Then(Out(Between, [Received(f)]), rest)
  {
    WellFormedIsStripped(f);
    HeadRead(f, rest);
    BodyRead(f, rest);
  }

  /** The first event of a body behind its head, when there is one. */
  lemma BodyEvent(g: Frame, body: string)
    requires g.body == ""
    ensures var es := Run(AfterHeaders(g), body + ['\0']).events;
            es != [] ==>
              && es[0].Received? && g == es[0].frame.(body := "")
              && (es[0].frame.body == body ==> CleanBody(g.(body := body)))
  {
    var s := body + ['\0'];
    var n := ContentLength(g);
    if n.Some? && n.value < |s| {
      assert s == s[..n.value] + [s[n.value]] + s[n.value + 1..];
      CountedDone(g, s[..n.value], s[n.value], s[n.value + 1..]);
    } else if n.Some? {
      RunPending(InCounted(g, n.value, s));
    } else {
      var i := Find(s, '\0');
      assert s == s[..i] + ['\0'] + s[i + 1..];
      TerminatedDone(g, s[..i], s[i + 1..]);
    }
  }

  lemma FirstEvent(f: Frame)
    requires Delivered(f)
    ensures var es := Run(Between, Wire(f)).events;
            es != [] ==>
              && es[0].Received? && Stripped(f) == es[0].frame.(body := "")
              && (es[0].frame.body == f.body ==> CleanBody(Stripped(f).(body := f.body)))
  {
    HeadRead(f, "");
    assert Wire(f) + "" == Wire(f) && f.body + ['\0'] + "" == f.body + ['\0'];
    BodyEvent(Stripped(f), f.body);
  }

  /** Round trip of one frame, with its exact condition: parsing what serialize
      wrote gives the frame back, and nothing else, if and only if the frame is
      well-formed. */
  lemma FrameRoundTrip(f: Frame)
    ensures Run(Between, Wire(f)) == Out(Between, [Received(f)]) <==> WellFormed(f)
  {
    assert Wire(f) + "" == Wire(f);
    if WellFormed(f) {
      FrameThen(f, "");
      assert [Received(f)] + [] == [Received(f)];
    }
    if Run(Between, Wire(f)) == Out(Between, [Received(f)]) {
      EventsDelivered(Between, Wire(f), 0);
      FirstEvent(f);
      assert Stripped(f) == f.(body := "");
      assert forall i :: 0 <= i < |f.headers| ==> StripHeaders(f.headers)[i] == f.headers[i];
      assert forall i :: 0 <= i < |f.headers| ==> CleanHeader(f.headers[i]);
    }
  }

  // ---- Lines that end in CR LF

  /** A line loses the CR before its LF, and nothing else. */
  lemma CarriageReturnGoes(line: string)
    ensures StripCr(line + "\r") == line
    ensures '\r' !in line ==> StripCr(line) == line
  {
    assert (line + "\r")[..|line|] == line;
  }

  function CrlfLines(headers: Headers): (s: string) {
    if headers == [] then "" else headers[0].0 + ":" + headers[0].1 + "\r\n" + CrlfLines(headers[1..])
  }

  /** The frame as a peer writes it that ends its lines in CR LF. */
  function CrlfWire(f: Frame): (s: string) {
    f.command + "\r\n" + CrlfLines(f.headers) + "\r\n" + f.body + "\0"
  }

  lemma CrlfLineRead(f: Frame, h: (string, string), rest: string)
    requires DeliveredHeader(h)
    ensures Run(InHeaders(f, ""), h.0 + ":" + h.1 + "\r\n" + rest)
         == Run(InHeaders(f.(headers := f.headers + [h]), ""), rest)
  {
    var text := h.0 + [':'] + h.1;
    assert h.0 + ":" + h.1 + "\r\n" + rest == (text + "\r") + ['\n'] + rest;
    HeaderDone(f, text + "\r", rest);
    CarriageReturnGoes(text);
    FindAfter(h.0, ':', h.1);
  }

  lemma {:induction false} CrlfLinesRead(f: Frame, headers: Headers, rest: string)
    requires forall i :: 0 <= i < |headers| ==> DeliveredHeader(headers[i])
    ensures Run(InHeaders(f, ""), CrlfLines(headers) + rest)
         == Run(InHeaders(f.(headers := f.headers + headers), ""), rest)
    decreases |headers|
  {
    if headers == [] {
      assert f.headers + headers == f.headers;
      assert CrlfLines(headers) + rest == rest;
    } else {
      var h, more := headers[0], headers[1..];
      var line := h.0 + ":" + h.1 + "\r\n";
      Regroup(line, CrlfLines(more), rest);
      CrlfLineRead(f, h, CrlfLines(more) + rest);
      CrlfLinesRead(f.(headers := f.headers + [h]), more, rest);
      Regroup(f.headers, [h], more);
      assert [h] + more == headers;
    }
  }

  lemma CrlfText(command: string, lines: string, tail: string)
    ensures command + "\r\n" + lines + "\r\n" + tail == (command + "\r") + ['\n'] + (lines + ("\r" + ['\n'] + tail))
  {
  }

  /** The head is read as it was written, a CR at the end of a value included. */
  lemma CrlfHeadRead(f: Frame, tail: string)
    requires Delivered(f)
    ensures Run(Between, f.command + "\r\n" + CrlfLines(f.headers) + "\r\n" + tail)
         == Run(AfterHeaders(f.(body := "")), tail)
  {
    var end := "\r" + ['\n'] + tail;
    CrlfText(f.command, CrlfLines(f.headers), tail);
    CommandDone(f.command + "\r", CrlfLines(f.headers) + end);
    CarriageReturnGoes(f.command);
    CrlfLinesRead(Frame(f.command, [], ""), f.headers, end);
    assert [] + f.headers == f.headers;
    CarriageReturnGoes("");
    assert "" + "\r" == "\r";
    HeaderDone(f.(body := ""), "\r", tail);
  }

  lemma CrlfBehind(f: Frame, rest: string)
    ensures CrlfWire(f) + rest == f.command + "\r\n" + CrlfLines(f.headers) + "\r\n" + (f.body + ['\0'] + rest)
  {
  }

  /** Such a frame is read back whole, and what follows it is read afresh. */
  lemma CrlfFrameThen(f: Frame, rest: string)
    requires Delivered(f) && CleanBody(f)
    ensures Run(Between, CrlfWire(f) + rest) == Then(Out(Between, [Received(f)]), rest)
  {
    CrlfBehind(f, rest);
    CrlfHeadRead(f, f.body + ['\0'] + rest);
    BodyRead(f, rest);
  }

  /** Round trip with CR LF at the end of the command, of each header line and of the
      blank line: the frame comes back, and nothing else, if and only if its texts
      have no line end or colon where one would be read, and its body is clean. */
  lemma CrlfRoundTrip(f: Frame)
    ensures Run(Between, CrlfWire(f)) == Out(Between, [Received(f)]) <==> Delivered(f) && CleanBody(f)
  {
    assert CrlfWire(f) + "" == CrlfWire(f);
    if Delivered(f) && CleanBody(f) {
      CrlfFrameThen(f, "");
      assert [Received(f)] + [] == [Received(f)];
    }
    if Run(Between, CrlfWire(f)) == Out(Between, [Received(f)]) {
      EventsDelivered(Between, CrlfWire(f), 0);
      CrlfBehind(f, "");
      CrlfHeadRead(f, f.body + ['\0'] + "");
      assert f.body + ['\0'] + "" == f.body + ['\0'];
      BodyEvent(f.(body := ""), f.body);
      assert f.(body := "").(body := f.body) == f;
    }
  }

  /** The shortest: a command, a blank line and a NUL, with CR LF. */
  lemma CrlfMessage()
    ensures Run(Between, "MESSAGE" + "\r\n" + "\r\n" + "\0") == Out(Between, [Received(Frame("MESSAGE", [], ""))])
  {
    var f := Frame("MESSAGE", [], "");
    CrlfRoundTrip(f);
    assert "MESSAGE" + "\r\n" + "" + "\r\n" + "" + "\0" == "MESSAGE" + "\r\n" + "\r\n" + "\0";
  }

  // ---- Which header tells the length

  lemma {:induction false} FirstBehind(before: Headers, key: string, value: string, after: Headers)
    requires forall i :: 0 <= i < |before| ==> before[i].0 != key
    ensures First(before + [(key, value)] + after, key) == Some(value)
    decreases |before|
  {
    var all := before + [(key, value)] + after;
    if before != [] {
      FirstBehind(before[1..], key, value, after);
      assert all[1..] == before[1..] + [(key, value)] + after && all[0] == before[0];
    }
  }

  lemma LengthText(n: nat)
    ensures Decimal.FromChars(Decimal.Print(n)) == if n < WORD then Some(n) else None
  {
    Decimal.FromCharsOfPrint(n, "");
    assert Decimal.Print(n) + "" == Decimal.Print(n);
  }

  lemma LengthIs(f: Frame, before: Headers, text: string, after: Headers)
    requires f.headers == before + [(CONTENT_LENGTH, text)] + after
    requires forall i :: 0 <= i < |before| ==> before[i].0 != CONTENT_LENGTH
    ensures ContentLength(f) == Decimal.FromChars(text)
  {
    FirstBehind(before, CONTENT_LENGTH, text, after);
  }

  /** The first content-length decides, whatever comes behind it; one that is a number
      of at most 64 bits counts the body. */
  lemma FirstLengthCounts(f: Frame, before: Headers, n: nat, after: Headers)
    requires f.headers == before + [(CONTENT_LENGTH, Decimal.Print(n))] + after
    requires forall i :: 0 <= i < |before| ==> before[i].0 != CONTENT_LENGTH
    ensures ContentLength(f) == if n < WORD then Some(n) else None
  {
    LengthIs(f, before, Decimal.Print(n), after);
    LengthText(n);
  }

  /** One that does not begin with a digit counts as none. */
  lemma NoNumberNoLength(f: Frame, before: Headers, text: string, after: Headers)
    requires f.headers == before + [(CONTENT_LENGTH, text)] + after
    requires forall i :: 0 <= i < |before| ==> before[i].0 != CONTENT_LENGTH
    requires text == "" || !Decimal.IsDigit(text[0])
    ensures ContentLength(f) == None
  {
    LengthIs(f, before, text, after);
  }

  // ---- Lines that end early

  // The bytes of a frame whose one header value is `a`, an LF and `b`.
  function CutTail(b: string): (s: string) { b + ['\n'] + ("" + ['\n'] + "\0") }

  lemma CutWire(command: string, key: string, a: string, b: string)
    ensures Wire(Frame(command, [(key, a + "\n" + b)], ""))
         == command + ['\n'] + ((key + [':'] + a) + ['\n'] + CutTail(b))
  {
    var h := [(key, a + "\n" + b)];
    assert h[1..] == [];
    assert HeaderLines(h) == Line(h[0]) + HeaderLines([]);
  }

  lemma CutLineRead(f: Frame, key: string, a: string, rest: string)
    requires CleanHeader((key, a)) && f.headers == []
    ensures Run(InHeaders(f, ""), (key + [':'] + a) + ['\n'] + rest)
         == Run(InHeaders(f.(headers := [(key, a)]), ""), rest)
  {
    HeaderDone(f, key + [':'] + a, rest);
    StripAfterColon(key, a);
    FindAfter(key, ':', a);
    assert [] + [(key, a)] == [(key, a)];
  }

  lemma CutTailRead(f: Frame, b: string)
    requires b != "" && '\n' !in b && ':' !in b && StripCr(b) == b
    requires f.body == "" && ContentLength(f).None?
    ensures Run(InHeaders(f, ""), CutTail(b)) == Out(Between, [Received(f)])
  {
    HeaderDone(f, b, "" + ['\n'] + "\0");
    HeaderDone(f, "", "\0");
    TerminatedDone(f, "", "");
    assert "" + ['\0'] + "" == "\0" && f.(body := "") == f;
  }

  /** A header value with an LF: what follows the LF is a line of its own, and is
      dropped when it has no colon. */
  lemma LineFeedCutsValue(command: string, key: string, a: string, b: string)
    requires CleanCommand(command) && CleanHeader((key, a)) && key != CONTENT_LENGTH
    requires b != "" && '\n' !in b && ':' !in b && StripCr(b) == b
    ensures Run(Between, Wire(Frame(command, [(key, a + "\n" + b)], "")))
         == Out(Between, [Received(Frame(command, [(key, a)], ""))])
  {
    CutWire(command, key, a, b);
    CommandDone(command, (key + [':'] + a) + ['\n'] + CutTail(b));
    CutLineRead(Frame(command, [], ""), key, a, CutTail(b));
    CutTailRead(Frame(command, [(key, a)], ""), b);
  }

  /** One such frame: a destination of two lines does not come back. */
  lemma TwoLineDestination()
    ensures var f := Frame("SEND", [("destination", "/a" + "\n" + "b")], "");
      && Run(Between, Wire(f)) != Out(Between, [Received(f)])
      && Run(Between, Wire(f)) == Out(Between, [Received(Frame("SEND", [("destination", "/a")], ""))])
  {
    LineFeedCutsValue("SEND", "destination", "/a", "b");
    assert |"/a" + "\n" + "b"| == 4;
  }

  // ---- A stream: frames with line ends between them

  datatype Piece = Gap(text: string) | Unit(frame: Frame)

  predicate CleanPiece(p: Piece) {
    match p
    case Gap(text) => forall i :: 0 <= i < |text| ==> text[i] == '\r' || text[i] == '\n'
    case Unit(f) => WellFormed(f)
  }

  function PieceText(p: Piece): (s: string) {
    if p.Gap? then p.text else Wire(p.frame)
  }

  function StreamText(pieces: seq<Piece>): (s: string) {
    if pieces == [] then "" else PieceText(pieces[0]) + StreamText(pieces[1..])
  }

  /** One heartbeat for each LF, none for a CR. */
  function Beats(text: string): (es: seq<Event>) {
    if text == "" then []
    else (if text[0] == '\n' then [Heartbeat] else []) + Beats(text[1..])
  }

  function StreamEvents(pieces: seq<Piece>): (es: seq<Event>) {
    if pieces == [] then []
    else (if pieces[0].Gap? then Beats(pieces[0].text) else [Received(pieces[0].frame)]) + StreamEvents(pieces[1..])
  }

  lemma {:induction false} GapRead(text: string)
    requires CleanPiece(Gap(text))
    ensures Run(Between, text) == Out(Between, Beats(text))
    decreases |text|
  {
    if text != "" {
      assert CleanPiece(Gap(text[1..]));
      GapRead(text[1..]);
    }
  }

  /** Stream round trip: every command, the ordered headers with their duplicates,
      every body and one heartbeat per LF come back, and nothing stays pending. */
  lemma {:induction false} StreamRoundTrip(pieces: seq<Piece>)
    requires forall i :: 0 <= i < |pieces| ==> CleanPiece(pieces[i])
    ensures Run(Between, StreamText(pieces)) == Out(Between, StreamEvents(pieces))
    decreases |pieces|
  {
    if pieces != [] {
      var rest := StreamText(pieces[1..]);
      StreamRoundTrip(pieces[1..]);
      if pieces[0].Gap? {
        GapRead(pieces[0].text);
        RunAppend(Between, pieces[0].text, rest);
      } else {
        FrameThen(pieces[0].frame, rest);
      }
    }
  }
}
