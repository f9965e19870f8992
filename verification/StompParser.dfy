// The incremental STOMP parser (src/StompParser.cpp).
//
// StompScanner is the reference: an automaton that takes one byte at a time and
// has no buffer to search. StompParser is the library's parser: a growing buffer,
// searched from its front and cut. Each Feed is proved to leave the state the
// automaton has after all the bytes fed so far, so how the network cut the stream
// cannot matter.
module StompScanner {
  import opened Prelude
  import opened StompFrames
  import Decimal

  datatype Event = Heartbeat | Received(frame: Frame)

  // What has been read of the unit that is being read.
  datatype Mode =
    | Between
    | InCommand(line: string)
    | InHeaders(frame: Frame, line: string)
    | InCounted(frame: Frame, length: nat, part: string)
    | InTerminated(frame: Frame, part: string)

  datatype Out = Out(mode: Mode, events: seq<Event>)

  const CONTENT_LENGTH := "content-length"

  function StripCr(line: string): (r: string) {
    if line != "" && line[|line| - 1] == '\r' then line[..|line| - 1] else line
  }

  /** A line without a colon is dropped; otherwise the first colon separates. */
  function WithHeader(f: Frame, line: string): (r: Frame) {
    var colon := Find(line, ':');
    if colon == |line| then f
    else f.(headers := f.headers + [(line[..colon], line[colon + 1..])])
  }

  function ContentLength(f: Frame): (r: Option<nat>) {
    var text := First(f.headers, CONTENT_LENGTH);
    if text.None? then None else Decimal.FromChars(text.value)
  }

  function AfterHeaders(f: Frame): (m: Mode) {
    var n := ContentLength(f);
    if n.Some? then InCounted(f, n.value, "") else InTerminated(f, "")
  }

  function ByteBetween(c: char): (r: Out) {
    if c == '\n' then Out(Between, [Heartbeat])
    else if c == '\r' then Out(Between, [])
    else Out(InCommand([c]), [])
  }

  function Byte(m: Mode, c: char): (r: Out) {
    match m
    case Between => ByteBetween(c)
    case InCommand(line) =>
      if c == '\n' then Out(InHeaders(Frame(StripCr(line), [], ""), ""), [])
      else Out(InCommand(line + [c]), [])
    case InHeaders(f, line) =>
      if c != '\n' then Out(InHeaders(f, line + [c]), [])
      else if StripCr(line) == "" then Out(AfterHeaders(f), [])
      else Out(InHeaders(WithHeader(f, StripCr(line)), ""), [])
    case InCounted(f, length, part) =>
      if |part| < length then Out(InCounted(f, length, part + [c]), [])
      else
        // The byte after a counted body belongs to the frame only if it is NUL.
        var done := Received(f.(body := part));
        if c == '\0' then Out(Between, [done])
        else Out(ByteBetween(c).mode, [done] + ByteBetween(c).events)
    case InTerminated(f, part) =>
      if c == '\0' then Out(Between, [Received(f.(body := part))])
      else Out(InTerminated(f, part + [c]), [])
  }

  function Run(m: Mode, s: string): (r: Out)
    decreases |s|
  {
    if s == "" then Out(m, [])
    else
      var one := Byte(m, s[0]);
      var more := Run(one.mode, s[1..]);
      Out(more.mode, one.events + more.events)
  }

  function Then(first: Out, s: string): (r: Out) {
    var more := Run(first.mode, s);
    Out(more.mode, first.events + more.events)
  }

  lemma RunAppend(m: Mode, a: string, b: string)
    ensures Run(m, a + b) == Then(Run(m, a), b)
    decreases |a|
  {
    if a == "" {
      assert a + b == b;
    } else {
      assert (a + b)[1..] == a[1..] + b;
      RunAppend(Byte(m, a[0]).mode, a[1..], b);
      var one := Byte(m, a[0]);
      assert one.events + (Run(one.mode, a[1..]).events + Run(Run(m, a).mode, b).events)
          == Run(m, a).events + Run(Run(m, a).mode, b).events;
    }
  }

  lemma RunAppend3(m: Mode, a: string, b: string, c: string)
    ensures Run(m, a + b + c) == Then(Then(Run(m, a), b), c)
  {
    RunAppend(m, a + b, c);
    RunAppend(m, a, b);
  }

  function Pending(m: Mode): (s: string) {
    match m
    case Between => ""
    case InCommand(line) => line
    case InHeaders(_, line) => line
    case InCounted(_, _, part) => part
    case InTerminated(_, part) => part
  }

  /** The same unit with nothing read of it yet. */
  function Rewind(m: Mode): (r: Mode) {
    match m
    case Between => Between
    case InCommand(_) => Between
    case InHeaders(f, _) => InHeaders(f, "")
    case InCounted(f, n, _) => InCounted(f, n, "")
    case InTerminated(f, _) => InTerminated(f, "")
  }

  /** What is pending never holds the whole unit: the LF, the NUL or the byte after
      a counted body has not arrived. */
  predicate Proper(m: Mode) {
    match m
    case Between => true
    case InCommand(line) => line != "" && line[0] != '\r' && line[0] != '\n' && '\n' !in line
    case InHeaders(_, line) => '\n' !in line
    case InCounted(f, n, part) => |part| <= n
    case InTerminated(_, part) => '\0' !in part
  }

  lemma {:induction false} RunProper(m: Mode, s: string)
    requires Proper(m)
    ensures Proper(Run(m, s).mode)
    decreases |s|
  {
    if s != "" {
      RunProper(Byte(m, s[0]).mode, s[1..]);
    }
  }

  /** The mode one pending byte earlier. */
  function Earlier(m: Mode): (b: Mode)
    requires Pending(m) != ""
  {
    var p := Pending(m);
    var k := |p| - 1;
    match m
    case InCommand(_) => if k == 0 then Between else InCommand(p[..k])
    case InHeaders(f, _) => InHeaders(f, p[..k])
    case InCounted(f, n, _) => InCounted(f, n, p[..k])
    case InTerminated(f, _) => InTerminated(f, p[..k])
    case Between => m
  }

  lemma EarlierByte(m: Mode)
    requires Proper(m) && Pending(m) != ""
    ensures Proper(Earlier(m)) && Rewind(Earlier(m)) == Rewind(m)
    ensures Pending(Earlier(m)) == Pending(m)[..|Pending(m)| - 1]
    ensures Byte(Earlier(m), Pending(m)[|Pending(m)| - 1]) == Out(m, [])
  {
  }

  /** Reading the pending bytes again from the start of the unit gives the same
      mode and no event: a buffer that keeps only them loses nothing. */
  lemma {:induction false} RunPending(m: Mode)
    requires Proper(m)
    ensures Run(Rewind(m), Pending(m)) == Out(m, [])
    decreases |Pending(m)|
  {
    var p := Pending(m);
    if p != "" {
      var k := |p| - 1;
      EarlierByte(m);
      RunPending(Earlier(m));
      RunAppend(Rewind(m), p[..k], [p[k]]);
      assert p == p[..k] + [p[k]];
      assert [p[k]][1..] == "" && Run(m, "") == Out(m, []);
    }
  }

  /** A unit that is complete at the front of `rest`: `part` is read without an
      event, then one more byte `c` finishes it. */
  lemma RunUnit(m: Mode, c: char, rest: string)
    requires Proper(m)
    ensures Run(Rewind(m), Pending(m) + [c] + rest) == Then(Byte(m, c), rest)
  {
    RunPending(m);
    RunAppend3(Rewind(m), Pending(m), [c], rest);
    assert Run(m, [c]) == Byte(m, c) by {
      assert [c][1..] == "";
      assert Run(Byte(m, c).mode, "") == Out(Byte(m, c).mode, []);
    }
  }

  lemma CommandDone(line: string, rest: string)
    requires Proper(InCommand(line))
    ensures Run(Between, line + ['\n'] + rest) == Run(InHeaders(Frame(StripCr(line), [], ""), ""), rest)
  {
    RunUnit(InCommand(line), '\n', rest);
    NoEvents(Run(Byte(InCommand(line), '\n').mode, rest));
  }

  lemma HeaderDone(f: Frame, line: string, rest: string)
    requires '\n' !in line
    ensures Run(InHeaders(f, ""), line + ['\n'] + rest)
         == Run(if StripCr(line) == "" then AfterHeaders(f) else InHeaders(WithHeader(f, StripCr(line)), ""), rest)
  {
    RunUnit(InHeaders(f, line), '\n', rest);
    NoEvents(Run(Byte(InHeaders(f, line), '\n').mode, rest));
  }

  /** A counted body is followed by its NUL, or the next byte starts what comes
      after the frame. */
  lemma CountedDone(f: Frame, body: string, next: char, rest: string)
    ensures Run(InCounted(f, |body|, ""), body + [next] + rest)
         == Then(Out(Between, [Received(f.(body := body))]), if next == '\0' then rest else [next] + rest)
  {
    RunUnit(InCounted(f, |body|, body), next, rest);
    if next != '\0' {
      RunCons(Between, next, rest);
      ThenPrefix([Received(f.(body := body))], ByteBetween(next), rest);
    }
  }

  lemma RunCons(m: Mode, c: char, rest: string)
    ensures Run(m, [c] + rest) == Then(Byte(m, c), rest)
  {
    assert ([c] + rest)[1..] == rest;
  }

  lemma ThenPrefix(events: seq<Event>, one: Out, rest: string)
    ensures Then(Out(one.mode, events + one.events), rest)
         == Out(Then(one, rest).mode, events + Then(one, rest).events)
  {
  }

  lemma TerminatedDone(f: Frame, body: string, rest: string)
    requires '\0' !in body
    ensures Run(InTerminated(f, ""), body + ['\0'] + rest) == Then(Out(Between, [Received(f.(body := body))]), rest)
  {
    RunUnit(InTerminated(f, body), '\0', rest);
  }

  /** `whole` is `rest` with `events` in front. */
  ghost predicate Precedes(events: seq<Event>, rest: Out, whole: Out) {
    whole.mode == rest.mode && whole.events == events + rest.events
  }

  lemma PrecedesTwice(a: seq<Event>, b: seq<Event>, last: Out, middle: Out, whole: Out)
    requires Precedes(a, middle, whole) && Precedes(b, last, middle)
    ensures Precedes(a + b, last, whole)
  {
  }

  lemma NoEvents(r: Out)
    ensures Out(r.mode, [] + r.events) == r
  {
    assert [] + r.events == r.events;
  }
}

module StompParsing {
  import opened Prelude
  import opened StompFrames
  import opened StompScanner
  import Decimal

  datatype State = WaitCommand | ReadHeaders | ReadBodyByLength | ReadBodyUntilNull

  // The parser's four fields.
  datatype Config = Config(state: State, buffer: string, frame: Frame, contentLength: nat)

  /** The mode the automaton is in when none of the buffer has been looked at. */
  function Resume(c: Config): (m: Mode) {
    match c.state
    case WaitCommand => Between
    case ReadHeaders => InHeaders(c.frame, "")
    case ReadBodyByLength => InCounted(c.frame, c.contentLength, "")
    case ReadBodyUntilNull => InTerminated(c.frame, "")
  }

  /** The fields that stand for a mode: the buffer keeps exactly what is pending. */
  function Rest(m: Mode): (c: Config) {
    match m
    case Between => Config(WaitCommand, "", EMPTY_FRAME, 0)
    case InCommand(line) => Config(WaitCommand, line, EMPTY_FRAME, 0)
    case InHeaders(f, line) => Config(ReadHeaders, line, f, 0)
    case InCounted(f, n, part) => Config(ReadBodyByLength, part, f, n)
    case InTerminated(f, part) => Config(ReadBodyUntilNull, part, f, 0)
  }

  /** No complete unit is withheld: the buffer is empty or lacks the LF, the NUL
      or the byte count that the current state needs. */
  predicate Drained(c: Config) {
    match c.state
    case WaitCommand => c.buffer == "" || (c.buffer[0] != '\r' && c.buffer[0] != '\n' && '\n' !in c.buffer)
    case ReadHeaders => '\n' !in c.buffer
    case ReadBodyByLength => |c.buffer| < c.contentLength + 1
    case ReadBodyUntilNull => '\0' !in c.buffer
  }

  lemma RestIsFaithful(m: Mode)
    requires Proper(m)
    ensures Drained(Rest(m)) && Resume(Rest(m)) == Rewind(m)
    ensures Run(Resume(Rest(m)), Rest(m).buffer) == Out(m, [])
  {
    RunPending(m);
  }

  /** The mode of a drained configuration is the one its fields stand for. */
  lemma DrainedIsRest(c: Config, events: seq<Event>)
    requires Drained(c)
    requires c.state == WaitCommand ==> c.frame == EMPTY_FRAME
    requires c.state != ReadBodyByLength ==> c.contentLength == 0
    ensures Then(Out(Resume(c), events), c.buffer).events == events
    ensures Rest(Run(Resume(c), c.buffer).mode) == c
  {
    var m := match c.state
      case WaitCommand => if c.buffer == "" then Between else InCommand(c.buffer)
      case ReadHeaders => InHeaders(c.frame, c.buffer)
      case ReadBodyByLength => InCounted(c.frame, c.contentLength, c.buffer)
      case ReadBodyUntilNull => InTerminated(c.frame, c.buffer);
    RunPending(m);
  }

  /** One `feed`, as a function of the fields. */
  function Fed(c: Config, data: string): (r: (Config, seq<Event>)) {
    var out := Run(Resume(c), c.buffer + data);
    (Rest(out.mode), out.events)
  }

  function FedAll(c: Config, chunks: seq<string>): (r: (Config, seq<Event>))
    decreases |chunks|
  {
    if chunks == [] then (c, [])
    else
      var one := Fed(c, chunks[0]);
      var more := FedAll(one.0, chunks[1..]);
      (more.0, one.1 + more.1)
  }

  const START := Config(WaitCommand, "", EMPTY_FRAME, 0)

  lemma FedFromRest(m: Mode, data: string)
    requires Proper(m)
    ensures Fed(Rest(m), data) == (Rest(Run(m, data).mode), Run(m, data).events)
  {
    RestIsFaithful(m);
    RunAppend(Resume(Rest(m)), Rest(m).buffer, data);
    NoEvents(Run(m, data));
  }

  lemma {:induction false} FedAllFromRest(m: Mode, chunks: seq<string>)
    requires Proper(m)
    ensures FedAll(Rest(m), chunks) == (Rest(Run(m, Flatten(chunks)).mode), Run(m, Flatten(chunks)).events)
    decreases |chunks|
  {
    if chunks != [] {
      var next := Run(m, chunks[0]).mode;
      FedFromRest(m, chunks[0]);
      RunProper(m, chunks[0]);
      FedAllFromRest(next, chunks[1..]);
      RunAppend(m, chunks[0], Flatten(chunks[1..]));
    }
  }

  /** Chunk independence: from any state a parser can be in, two ways of cutting
      the same bytes end in the same fields with the same trace, which is the
      trace of feeding all of them at once. */
  lemma ChunkIndependence(past: string, chunks: seq<string>, other: seq<string>)
    requires Flatten(chunks) == Flatten(other)
    ensures var here := Rest(Run(Between, past).mode);
            && FedAll(here, chunks) == FedAll(here, other)
            && FedAll(here, chunks) == Fed(here, Flatten(chunks))
  {
    RunProper(Between, past);
    var m := Run(Between, past).mode;
    FedAllFromRest(m, chunks);
    FedAllFromRest(m, other);
    FedFromRest(m, Flatten(chunks));
  }

  class StompParser {
    var state: State
    var buffer: string
    var currentFrame: StompFrame
    var contentLength: nat

    ghost var fed: string         // every byte since construction or Reset
    ghost var trace: seq<Event>   // every callback since then, in order

    function Fields(): (c: Config)
      reads this, currentFrame
    {
      Config(state, buffer, currentFrame.Value(), contentLength)
    }

    /** Fields and callbacks are those of the reference automaton. */
    ghost predicate Valid()
      reads this, currentFrame
    {
      Run(Between, fed) == Out(Run(Between, fed).mode, trace) && Fields() == Rest(Run(Between, fed).mode)
    }

    constructor ()
      ensures Valid() && fresh(currentFrame)
      ensures fed == "" && trace == [] && Fields() == START
    {
      state, buffer, contentLength := WaitCommand, "", 0;
      currentFrame := new StompFrame("");
      fed, trace := "", [];
    }

    method Reset()
      modifies this
      ensures Valid() && fresh(currentFrame)
      ensures fed == "" && trace == [] && Fields() == START
    {
      state := WaitCommand;
      buffer := "";
      currentFrame := new StompFrame("");
      contentLength := 0;
      fed, trace := "", [];
    }

    /** The callbacks of one call, in order. */
    method Feed(data: string) returns (events: seq<Event>)
      requires Valid()
      modifies this, currentFrame
      ensures Valid() && (currentFrame == old(currentFrame) || fresh(currentFrame))
      ensures fed == old(fed) + data && trace == old(trace) + events
      ensures (Fields(), events) == Fed(old(Fields()), data)
      ensures Drained(Fields())
    {
      ghost var m := Run(Between, fed).mode;
      RunProper(Between, fed);
      RunAppend(Between, fed, data);
      FedFromRest(m, data);
      RestIsFaithful(m);
      if data == "" {
        assert buffer + data == buffer && fed + data == fed;
        return [];
      }
      buffer := buffer + data;
      assert Resume(Fields()) == Rewind(m);
      assert Tidy();
      events := ProcessBuffer();
      fed, trace := fed + data, trace + events;
    }

    /** The fields the current state does not use have their initial values. */
    predicate Tidy()
      reads this, currentFrame
    {
      && (state == WaitCommand ==> currentFrame.Value() == EMPTY_FRAME)
      && (state != ReadBodyByLength ==> contentLength == 0)
    }

    /** What the automaton makes of the buffer. */
    ghost function Ahead(): (r: Out)
      reads this, currentFrame
    {
      Run(Resume(Fields()), buffer)
    }

    /** The loop of the source; its three blocks are the three methods below. */
    method ProcessBuffer() returns (events: seq<Event>)
      requires Tidy()
      modifies this, currentFrame
      ensures currentFrame == old(currentFrame) || fresh(currentFrame)
      ensures fed == old(fed) && trace == old(trace)
      ensures Fields() == Rest(old(Ahead()).mode) && events == old(Ahead()).events
      ensures Drained(Fields())
    {
      events := [];
      var go := true;
      while buffer != "" && go
        invariant Tidy() && (!go ==> Drained(Fields()))
        invariant currentFrame == old(currentFrame) || fresh(currentFrame)
        invariant fed == old(fed) && trace == old(trace)
        invariant Precedes(events, Ahead(), old(Ahead()))
        decreases go, |buffer|, state == ReadBodyByLength
      {
        if state == WaitCommand {
          ghost var before := Ahead();
          var more;
          more, go := AwaitCommand();
          PrecedesTwice(events, more, Ahead(), before, old(Ahead()));
          events := events + more;
        }
        if go && state == ReadHeaders {
          go := AwaitHeaders();
        }
        if go {
          ghost var before := Ahead();
          var more;
          more, go := AwaitBody();
          PrecedesTwice(events, more, Ahead(), before, old(Ahead()));
          events := events + more;
        }
      }
      DrainedIsRest(Fields(), events);
    }

    method AwaitCommand() returns (events: seq<Event>, go: bool)
      requires Tidy() && state == WaitCommand
      modifies this
      ensures currentFrame == old(currentFrame) || fresh(currentFrame)
      ensures Tidy() && fed == old(fed) && trace == old(trace)
      ensures Precedes(events, Ahead(), old(Ahead()))
      ensures |buffer| <= |old(buffer)|
      ensures if go then state == ReadHeaders && |buffer| < |old(buffer)| else state == WaitCommand && Drained(Fields())
    {
      var nonWs;
      events, nonWs := SkipLineEnds();
      if nonWs > 0 {
        buffer := buffer[nonWs..];
      }
      if buffer == "" {
        return events, false;
      }
      go := TakeCommandLine();
    }

    method TakeCommandLine() returns (go: bool)
      requires Tidy() && state == WaitCommand
      requires buffer != "" && buffer[0] != '\r' && buffer[0] != '\n'
      modifies this
      ensures currentFrame == old(currentFrame) || fresh(currentFrame)
      ensures Tidy() && fed == old(fed) && trace == old(trace)
      ensures Ahead() == old(Ahead())
      ensures |buffer| <= |old(buffer)|
      ensures if go then state == ReadHeaders && |buffer| < |old(buffer)| else state == WaitCommand && Drained(Fields())
    {
      var lineEnd := Find(buffer, '\n');
      if lineEnd == |buffer| {
        return false;
      }
      var command := buffer[..lineEnd];
      CommandDone(command, buffer[lineEnd + 1..]);
      assert buffer == command + ['\n'] + buffer[lineEnd + 1..];
      if command != "" && command[|command| - 1] == '\r' {
        command := command[..|command| - 1];
      }
      currentFrame := new StompFrame(command);
      buffer := buffer[lineEnd + 1..];
      state := ReadHeaders;
      contentLength := 0;
      return true;
    }

    /** Leading CR/LF: heartbeats or blank space between frames. */
    method SkipLineEnds() returns (events: seq<Event>, nonWs: nat)
      ensures nonWs <= |buffer| && Precedes(events, Run(Between, buffer[nonWs..]), Run(Between, buffer))
      ensures nonWs < |buffer| ==> buffer[nonWs] != '\r' && buffer[nonWs] != '\n'
    {
      events := [];
      nonWs := 0;
      while nonWs < |buffer| && (buffer[nonWs] == '\r' || buffer[nonWs] == '\n')
        invariant nonWs <= |buffer|
        invariant Precedes(events, Run(Between, buffer[nonWs..]), Run(Between, buffer))
      {
        assert buffer[nonWs..][1..] == buffer[nonWs + 1..];
        if buffer[nonWs] == '\n' {
          events := events + [Heartbeat];
        }
        nonWs := nonWs + 1;
      }
    }

    method AwaitHeaders() returns (go: bool)
      requires Tidy() && state == ReadHeaders
      modifies this, currentFrame
      ensures currentFrame == old(currentFrame)
      ensures Tidy() && fed == old(fed) && trace == old(trace)
      ensures Ahead() == old(Ahead())
      ensures |buffer| <= |old(buffer)|
      ensures if go then (state == ReadBodyByLength || state == ReadBodyUntilNull) && |buffer| < |old(buffer)|
              else state == ReadHeaders && Drained(Fields())
    {
      go := TakeHeaderLines();
      if go {
        var text := currentFrame.GetHeader(CONTENT_LENGTH);
        var length := if text.Some? then Decimal.FromChars(text.value) else None;
        if length.Some? {
          contentLength := length.value;
          state := ReadBodyByLength;
        } else {
          state := ReadBodyUntilNull;
        }
      }
    }

    method TakeHeaderLines() returns (headersDone: bool)
      requires Tidy() && state == ReadHeaders
      modifies this`buffer, currentFrame
      ensures Tidy()
      ensures headersDone ==>
        |buffer| < |old(buffer)| && Run(AfterHeaders(currentFrame.Value()), buffer) == old(Ahead())
      ensures !headersDone ==> |buffer| <= |old(buffer)| && Ahead() == old(Ahead()) && Drained(Fields())
    {
      headersDone := false;
      while buffer != "" && !headersDone
        invariant Tidy()
        invariant |buffer| <= |old(buffer)| && (headersDone ==> |buffer| < |old(buffer)|)
        invariant !headersDone ==> Ahead() == old(Ahead())
        invariant headersDone ==> Run(AfterHeaders(currentFrame.Value()), buffer) == old(Ahead())
        decreases |buffer|
      {
        var lineEnd := Find(buffer, '\n');
        if lineEnd == |buffer| {
          return false;
        }
        headersDone := TakeHeaderLine(lineEnd);
      }
    }

    method TakeHeaderLine(lineEnd: nat) returns (last: bool)
      requires Tidy() && state == ReadHeaders
      requires lineEnd < |buffer| && lineEnd == Find(buffer, '\n')
      modifies this`buffer, currentFrame
      ensures Tidy() && |buffer| < |old(buffer)|
      ensures old(Ahead()) == if last then Run(AfterHeaders(currentFrame.Value()), buffer) else Ahead()
    {
      var headerLine := buffer[..lineEnd];
      HeaderDone(currentFrame.Value(), headerLine, buffer[lineEnd + 1..]);
      assert buffer == headerLine + ['\n'] + buffer[lineEnd + 1..];
      if headerLine != "" && headerLine[|headerLine| - 1] == '\r' {
        headerLine := headerLine[..|headerLine| - 1];
      }
      buffer := buffer[lineEnd + 1..];
      last := headerLine == "";
      if !last {
        var _ := ParseHeaderLine(headerLine);
      }
    }

    method AwaitBody() returns (events: seq<Event>, go: bool)
      requires Tidy() && (state == ReadBodyByLength || state == ReadBodyUntilNull)
      modifies this, currentFrame
      ensures currentFrame == old(currentFrame) || fresh(currentFrame)
      ensures Tidy() && fed == old(fed) && trace == old(trace)
      ensures Precedes(events, Ahead(), old(Ahead()))
      ensures if go
              then state == WaitCommand && |buffer| + (if old(state) == ReadBodyByLength then 0 else 1) <= |old(buffer)|
              else events == [] && Fields() == old(Fields()) && Drained(Fields())
    {
      if state == ReadBodyByLength {
        if |buffer| < contentLength + 1 {
          return [], false;
        }
        events := TakeCountedBody();
      } else {
        var nullPos := Find(buffer, '\0');
        if nullPos == |buffer| {
          return [], false;
        }
        events := TakeTerminatedBody(nullPos);
      }
      StartOver();
      go := true;
    }

    method StartOver()
      modifies this`state, this`currentFrame, this`contentLength
      ensures Fields() == Config(WaitCommand, buffer, EMPTY_FRAME, 0) && fresh(currentFrame)
    {
      state := WaitCommand;
      currentFrame := new StompFrame("");
      contentLength := 0;
    }

    method TakeCountedBody() returns (events: seq<Event>)
      requires state == ReadBodyByLength && contentLength < |buffer|
      modifies this`buffer, currentFrame
      ensures |buffer| <= |old(buffer)| && Precedes(events, Run(Between, buffer), old(Ahead()))
    {
      var body := buffer[..contentLength];
      CountedDone(currentFrame.Value(), body, buffer[contentLength], buffer[contentLength + 1..]);
      assert buffer == body + [buffer[contentLength]] + buffer[contentLength + 1..];
      currentFrame.SetBody(body);
      if buffer[contentLength] == '\0' {
        buffer := buffer[contentLength + 1..];
      } else {
        assert buffer[contentLength..] == [buffer[contentLength]] + buffer[contentLength + 1..];
        buffer := buffer[contentLength..];
      }
      return [Received(currentFrame.Value())];
    }

    method TakeTerminatedBody(nullPos: nat) returns (events: seq<Event>)
      requires state == ReadBodyUntilNull && nullPos < |buffer| && nullPos == Find(buffer, '\0')
      modifies this`buffer, currentFrame
      ensures |buffer| < |old(buffer)| && Precedes(events, Run(Between, buffer), old(Ahead()))
    {
      var body := buffer[..nullPos];
      TerminatedDone(currentFrame.Value(), body, buffer[nullPos + 1..]);
      assert buffer == body + ['\0'] + buffer[nullPos + 1..];
      currentFrame.SetBody(body);
      buffer := buffer[nullPos + 1..];
      return [Received(currentFrame.Value())];
    }

    method ParseHeaderLine(line: string) returns (ok: bool)
      modifies currentFrame
      ensures currentFrame.Value() == WithHeader(old(currentFrame.Value()), line)
      ensures ok <==> ':' in line
    {
      var colon := Find(line, ':');
      if colon == |line| {
        return false;
      }
      currentFrame.AddHeader(line[..colon], line[colon + 1..]);
      return true;
    }
  }
}
