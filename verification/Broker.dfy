// The repository's own broker (examples/server/stomp_server.py): reading frames,
// its subscription table and broadcasts. Strings are Python strings here, sequences of
// code points: the WebSocket library under the broker decodes each text frame and
// encodes each text sent.
module Brokers {
  import opened Prelude
  import opened StompFrames
  import opened Unicode
  import Decimal

  // ---- Python strings

  predicate IsSpace(c: char) {
    || '\t' <= c <= '\r' || 28 <= c as int <= 31 || c == ' ' || c as int == 0x85 || c as int == 0xA0
    || c as int == 0x1680 || 0x2000 <= c as int <= 0x200A || c as int == 0x2028 || c as int == 0x2029
    || c as int == 0x202F || c as int == 0x205F || c as int == 0x3000
  }

  function StripLeft(s: string): (r: string)
    ensures |r| <= |s|
  {
    if s != "" && IsSpace(s[0]) then StripLeft(s[1..]) else s
  }

  function StripRight(s: string): (r: string)
    ensures |r| <= |s|
  {
    if s != "" && IsSpace(s[|s| - 1]) then StripRight(s[..|s| - 1]) else s
  }

  /** str.strip() */
  function Strip(s: string): (r: string) { StripRight(StripLeft(s)) }

  /** str.split(c) */
  function Split(s: string, c: char): (parts: seq<string>)
    ensures |parts| >= 1
    decreases |s|
  {
    var i := Find(s, c);
    if i == |s| then [s] else [s[..i]] + Split(s[i + 1..], c)
  }

  /** "\n".join(parts) */
  function JoinLines(parts: seq<string>): (s: string) {
    if parts == [] then ""
    else if |parts| == 1 then parts[0]
    else parts[0] + "\n" + JoinLines(parts[1..])
  }

  lemma SplitAt(a: string, c: char, b: string)
    requires c !in a
    ensures Split(a + [c] + b, c) == [a] + Split(b, c)
  {
    FindAfter(a, c, b);
  }

  lemma SplitWhole(a: string, c: char)
    requires c !in a
    ensures Split(a, c) == [a]
  {
  }

  lemma {:induction false} StripRightAppend(a: string, b: string)
    ensures StripRight(a + b) == if StripRight(b) == "" then StripRight(a) else a + StripRight(b)
    decreases |b|
  {
    if b == "" {
      assert a + b == a;
    } else {
      var k := |b| - 1;
      assert (a + b)[..|a + b| - 1] == a + b[..k];
      if IsSpace(b[k]) {
        StripRightAppend(a, b[..k]);
      }
    }
  }

  lemma {:induction false} StripLeftOfRight(s: string)
    ensures StripLeft(StripRight(s)) == StripRight(StripLeft(s))
    decreases |s|
  {
    if s != "" && IsSpace(s[0]) {
      StripLeftOfRight(s[1..]);
      StripRightAppend([s[0]], s[1..]);
      assert s == [s[0]] + s[1..];
      assert StripRight([s[0]]) == StripRight([s[0]][..0]) == "";
      if StripRight(s[1..]) != "" {
        assert ([s[0]] + StripRight(s[1..]))[1..] == StripRight(s[1..]);
      }
    } else if s != "" {
      StripRightAppend([s[0]], s[1..]);
      assert s == [s[0]] + s[1..];
      assert StripRight([s[0]]) == [s[0]];
    }
  }

  lemma {:induction false} StripRightTwice(s: string)
    ensures StripRight(StripRight(s)) == StripRight(s)
    decreases |s|
  {
    if s != "" && IsSpace(s[|s| - 1]) {
      StripRightTwice(s[..|s| - 1]);
    }
  }

  /** Stripping the right end first changes nothing about strip(). */
  lemma StripAbsorbs(s: string)
    ensures Strip(StripRight(s)) == Strip(s)
  {
    StripLeftOfRight(s);
    StripRightTwice(StripLeft(s));
  }

  predicate Blank(s: string) { forall i :: 0 <= i < |s| ==> IsSpace(s[i]) }

  /** What strip() takes off is white space, and none is left at either end. */
  lemma StripExact(s: string) returns (left: string, right: string)
    ensures s == left + Strip(s) + right && Blank(left) && Blank(right)
    ensures Strip(s) != "" ==> !IsSpace(Strip(s)[0]) && !IsSpace(Strip(s)[|Strip(s)| - 1])
  {
    left := StripLeftExact(s);
    right := StripRightExact(StripLeft(s));
    if Strip(s) != "" {
      assert Strip(s)[0] == StripLeft(s)[0];
    }
  }

  lemma {:induction false} StripLeftExact(s: string) returns (left: string)
    ensures s == left + StripLeft(s) && Blank(left)
    ensures StripLeft(s) != "" ==> !IsSpace(StripLeft(s)[0])
    decreases |s|
  {
    left := "";
    if s != "" && IsSpace(s[0]) {
      var more := StripLeftExact(s[1..]);
      left := [s[0]] + more;
      assert s == [s[0]] + s[1..];
    }
  }

  lemma {:induction false} StripRightExact(s: string) returns (right: string)
    ensures s == StripRight(s) + right && Blank(right)
    ensures StripRight(s) != "" ==> !IsSpace(StripRight(s)[|StripRight(s)| - 1])
    decreases |s|
  {
    right := "";
    if s != "" && IsSpace(s[|s| - 1]) {
      var k := |s| - 1;
      var more := StripRightExact(s[..k]);
      right := more + [s[k]];
      Regroup(StripRight(s), more, [s[k]]);
      assert s == s[..k] + [s[k]];
    }
  }

  // ---- Reading a frame

  datatype Parsed = Parsed(headers: map<string, string>, body: string)

  function AddLine(headers: map<string, string>, line: string): (r: map<string, string>) {
    var colon := Find(line, ':');
    if colon == |line| then headers else headers[Strip(line[..colon]) := Strip(line[colon + 1..])]
  }

  function ReadLines(lines: seq<string>, headers: map<string, string>): (p: Parsed)
    decreases |lines|
  {
    if lines == [] then Parsed(headers, "")
    else if lines[0] == "" || lines[0] == "\r" then Parsed(headers, JoinLines(lines[1..]))
    else ReadLines(lines[1..], AddLine(headers, lines[0]))
  }

  function Get(headers: map<string, string>, key: string, otherwise: string): (v: string) {
    if key in headers then headers[key] else otherwise
  }

  // ---- The broker's state and what a frame does to it

  // subscriptions: the dictionary in insertion order; inbox: SENDs handed to the game.
  datatype Broker = Broker(subscriptions: Headers, connected: bool, playing: bool, inbox: seq<(string, string)>,
                           sent: seq<string>)

  const SERVER := "Stomp-Ping-Pong-Host/1.0"
  const SERVER_LINE := "server:" + SERVER + "\n"
  const CONNECTED_TEXT :=
    "CONNECTED\n" + "version:1.2\n" + "session:ping-pong-game-001\n" + SERVER_LINE
    + "heart-beat:10000,10000\n" + "\n" + "\0"

  function Without(table: Headers, id: string): (r: Headers) {
    if table == [] then []
    else if table[0].0 == id then Without(table[1..], id)
    else [table[0]] + Without(table[1..], id)
  }

  function OnFrame(b: Broker, command: string, p: Parsed): (r: Broker) {
    if command == "CONNECT" || command == "STOMP" then b.(connected := true, sent := b.sent + [CONNECTED_TEXT])
    else if command == "SUBSCRIBE" then
      var dest := Get(p.headers, "destination", "");
      b.(subscriptions := Assign(b.subscriptions, Get(p.headers, "id", "0"), dest),
         playing := b.playing || dest == "/topic/game")
    else if command == "UNSUBSCRIBE" then b.(subscriptions := Without(b.subscriptions, Get(p.headers, "id", "")))
    else if command == "SEND" then b.(inbox := b.inbox + [(Get(p.headers, "destination", ""), p.body)])
    else if command == "DISCONNECT" then b.(connected := false)
    else b
  }

  /** Command, headers and body of one stripped frame. */
  function ReadFrame(text: string): (r: (string, Parsed)) {
    var lines := Split(text, '\n');
    (Strip(lines[0]), ReadLines(lines[1..], map[]))
  }

  /** The frames of a message: what is left between NULs after stripping. */
  function ReadParts(parts: seq<string>): (r: seq<(string, Parsed)>)
    decreases |parts|
  {
    if parts == [] then []
    else (if Strip(parts[0]) == "" then [] else [ReadFrame(Strip(parts[0]))]) + ReadParts(parts[1..])
  }

  function ReadMessage(data: string): (r: seq<(string, Parsed)>) { ReadParts(Split(data, '\0')) }

  function OnFrames(b: Broker, frames: seq<(string, Parsed)>): (r: Broker)
    decreases |frames|
  {
    if frames == [] then b else OnFrames(OnFrame(b, frames[0].0, frames[0].1), frames[1..])
  }

  function HandleRaw(b: Broker, data: string): (r: Broker) { OnFrames(b, ReadMessage(data)) }

  /** What the broker reads of the payload of a text frame: None when it is not UTF-8,
      where the library fails the connection instead (section 8.1 of RFC 6455). */
  function Heard(payload: string): (r: Option<seq<(string, Parsed)>>) {
    var text := FromUtf8(payload);
    if text.None? then None else Some(ReadMessage(text.value))
  }

  /** A text frame of the client; one that is not UTF-8 does nothing to the table. */
  function HandlePayload(b: Broker, payload: string): (r: Broker) {
    var frames := Heard(payload);
    if frames.None? then b else OnFrames(b, frames.value)
  }

  // ---- Broadcast

  function MessageFrame(destination: string, subId: string, messageId: string, payload: string): (f: Frame) {
    Frame("MESSAGE",
          [("destination", destination), ("subscription", subId), ("message-id", messageId),
           ("content-type", "application/json"), ("content-length", Decimal.Print(|Utf8(payload)|))], payload)
  }

  function MessageId(round: nat, tag: nat): (s: string) {
    "game-" + Decimal.Print(round) + "-" + Decimal.Print(tag)
  }

  /** The ids subscribed to a destination, in the table's order. */
  function Matching(table: Headers, destination: string): (ids: seq<string>) {
    if table == [] then []
    else
      var k := |table| - 1;
      Matching(table[..k], destination) + if table[k].1 == destination then [table[k].0] else []
  }

  function MessageTexts(ids: seq<string>, destination: string, round: nat, tags: seq<nat>, payload: string)
    : (ts: seq<string>)
    requires |tags| == |ids|
    ensures |ts| == |ids|
  {
    seq(|ids|, i requires 0 <= i < |ids| => Wire(MessageFrame(destination, ids[i], MessageId(round, tags[i]), payload)))
  }

  /** What belongs to the sends that did not raise. */
  function Chosen<T>(xs: seq<T>, ok: seq<bool>): (r: seq<T>)
    requires |ok| == |xs|
  {
    if xs == [] then []
    else
      var k := |xs| - 1;
      Chosen(xs[..k], ok[..k]) + if ok[k] then [xs[k]] else []
  }

  lemma NextPart(b: Broker, parts: seq<string>)
    requires parts != []
    ensures OnFrames(b, ReadParts(parts)) ==
      if Strip(parts[0]) == "" then OnFrames(b, ReadParts(parts[1..]))
      else OnFrames(OnFrame(b, ReadFrame(Strip(parts[0])).0, ReadFrame(Strip(parts[0])).1), ReadParts(parts[1..]))
  {
    var f := ReadFrame(Strip(parts[0]));
    assert ([f] + ReadParts(parts[1..]))[1..] == ReadParts(parts[1..]);
    assert [] + ReadParts(parts[1..]) == ReadParts(parts[1..]);
  }

  class PingPongStompHandler {
    var subscriptions: Headers
    var connected: bool
    var playing: bool
    var inbox: seq<(string, string)>
    var sent: seq<string>
    var roundNumber: nat

    function View(): (b: Broker)
      reads this
    {
      Broker(subscriptions, connected, playing, inbox, sent)
    }

    constructor ()
      ensures View() == Broker([], false, false, [], []) && roundNumber == 0
    {
      subscriptions, connected, playing, inbox, sent, roundNumber := [], false, false, [], [], 0;
    }

    method HandleRawData(data: string)
      modifies this
      ensures View() == HandleRaw(old(View()), data) && roundNumber == old(roundNumber)
    {
      var frames := Split(data, '\0');
      for i := 0 to |frames|
        invariant roundNumber == old(roundNumber)
        invariant OnFrames(View(), ReadParts(frames[i..])) == HandleRaw(old(View()), data)
      {
        var trimmed := Strip(frames[i]);
        NextPart(View(), frames[i..]);
        assert frames[i..][1..] == frames[i + 1..];
        if trimmed != "" {
          Process(trimmed);
        }
      }
    }

    method Process(text: string)
      modifies this
      ensures View() == OnFrame(old(View()), ReadFrame(text).0, ReadFrame(text).1) && roundNumber == old(roundNumber)
    {
      var lines := Split(text, '\n');
      var command := Strip(lines[0]);
      var headers, body := ReadHeaders(lines);
      if command == "CONNECT" || command == "STOMP" {
        connected := true;
        sent := sent + [CONNECTED_TEXT];
      } else if command == "SUBSCRIBE" {
        var dest := Get(headers, "destination", "");
        subscriptions := Assign(subscriptions, Get(headers, "id", "0"), dest);
        playing := playing || dest == "/topic/game";
      } else if command == "UNSUBSCRIBE" {
        subscriptions := Without(subscriptions, Get(headers, "id", ""));
      } else if command == "SEND" {
        inbox := inbox + [(Get(headers, "destination", ""), body)];
      } else if command == "DISCONNECT" {
        connected := false;
      }
    }

    method ReadHeaders(lines: seq<string>) returns (headers: map<string, string>, body: string)
      requires |lines| >= 1
      ensures Parsed(headers, body) == ReadLines(lines[1..], map[])
    {
      headers, body := map[], "";
      var idx := 1;
      while idx < |lines|
        invariant 1 <= idx <= |lines| && body == ""
        invariant ReadLines(lines[1..], map[]) == ReadLines(lines[idx..], headers)
      {
        var line := lines[idx];
        assert lines[idx..][1..] == lines[idx + 1..];
        if line == "" || line == "\r" {
          body := JoinLines(lines[idx + 1..]);
          return;
        }
        headers := AddLine(headers, line);
        idx := idx + 1;
      }
    }

    /** One send for each matching subscription; a send that raises marks the player
        as gone, and the loop goes on. */
    method BroadcastMessage(destination: string, payload: string) returns (ghost tags: seq<nat>, ghost ok: seq<bool>)
      modifies this
      ensures subscriptions == old(subscriptions) && roundNumber == old(roundNumber)
      ensures !old(connected) ==> sent == old(sent) && !connected
      ensures old(connected) ==>
        && old(sent) <= sent
        && Broadcasted(subscriptions, destination, roundNumber, tags, payload, ok, sent[|old(sent)|..])
        && (connected <==> false !in ok)
    {
      tags, ok := [], [];
      if !connected {
        return;
      }
      ghost var out: seq<string> := [];
      for i := 0 to |subscriptions|
        invariant subscriptions == old(subscriptions) && roundNumber == old(roundNumber)
        invariant Broadcasted(subscriptions[..i], destination, roundNumber, tags, payload, ok, out)
        invariant sent == old(sent) + out
        invariant connected <==> false !in ok
      {
        assert subscriptions[..i + 1] == subscriptions[..i] + [subscriptions[i]];
        if subscriptions[i].1 == destination {
          ghost var tag, delivered := SendMessage(destination, subscriptions[i].0, payload);
          BroadcastedRow(subscriptions[..i], subscriptions[i], destination, roundNumber, tags, tag, payload, ok,
                         delivered, out);
          out := out + OneText(destination, subscriptions[i].0, roundNumber, tag, payload, delivered);
          tags, ok := tags + [tag], ok + [delivered];
        } else {
          BroadcastedRow(subscriptions[..i], subscriptions[i], destination, roundNumber, tags, 0, payload, ok,
                         true, out);
        }
      }
      assert subscriptions[..|subscriptions|] == subscriptions;
    }

    method SendMessage(destination: string, id: string, payload: string) returns (ghost tag: nat, ghost delivered: bool)
      modifies this`sent, this`connected
      ensures sent == old(sent) + OneText(destination, id, roundNumber, tag, payload, delivered)
      ensures connected == (old(connected) && delivered)
    {
      var number: nat :| 100 <= number <= 999;
      var arrived: bool := *;
      tag, delivered := number, arrived;
      if arrived {
        sent := sent + [Wire(MessageFrame(destination, id, MessageId(roundNumber, number), payload))];
      } else {
        connected := false;
      }
    }
  }

  function OneText(destination: string, id: string, round: nat, tag: nat, payload: string, delivered: bool)
    : (ts: seq<string>)
  {
    if delivered then [Wire(MessageFrame(destination, id, MessageId(round, tag), payload))] else []
  }

  /** `out` is what a broadcast over the table wrote, with these random message
      numbers and these sends that did not raise. */
  ghost predicate Broadcasted(table: Headers, destination: string, round: nat, tags: seq<nat>, payload: string,
                              ok: seq<bool>, out: seq<string>) {
    var ids := Matching(table, destination);
    |tags| == |ok| == |ids| && out == Chosen(MessageTexts(ids, destination, round, tags, payload), ok)
  }

  lemma BroadcastedRow(table: Headers, row: (string, string), destination: string, round: nat, tags: seq<nat>, tag: nat,
                       payload: string, ok: seq<bool>, delivered: bool, out: seq<string>)
    requires Broadcasted(table, destination, round, tags, payload, ok, out)
    ensures row.1 == destination ==>
      Broadcasted(table + [row], destination, round, tags + [tag], payload, ok + [delivered],
                  out + OneText(destination, row.0, round, tag, payload, delivered))
    ensures row.1 != destination ==> Broadcasted(table + [row], destination, round, tags, payload, ok, out)
  {
    assert (table + [row])[..|table|] == table;
    var ids := Matching(table, destination);
    if row.1 == destination {
      ExtendTexts(ids, row.0, destination, round, tags, tag, payload, ok, delivered);
    } else {
      assert Matching(table + [row], destination) == ids;
    }
  }

  lemma ExtendTexts(ids: seq<string>, id: string, destination: string, round: nat, tags: seq<nat>, tag: nat,
                    payload: string, ok: seq<bool>, delivered: bool)
    requires |tags| == |ids| == |ok|
    ensures Chosen(MessageTexts(ids + [id], destination, round, tags + [tag], payload), ok + [delivered])
         == Chosen(MessageTexts(ids, destination, round, tags, payload), ok)
            + OneText(destination, id, round, tag, payload, delivered)
  {
    var longer := MessageTexts(ids + [id], destination, round, tags + [tag], payload);
    var last := Wire(MessageFrame(destination, id, MessageId(round, tag), payload));
    assert longer == MessageTexts(ids, destination, round, tags, payload) + [last];
    ChosenSnoc(MessageTexts(ids, destination, round, tags, payload), ok, last, delivered);
  }

  lemma ChosenSnoc<T>(xs: seq<T>, ok: seq<bool>, x: T, delivered: bool)
    requires |ok| == |xs|
    ensures Chosen(xs + [x], ok + [delivered]) == Chosen(xs, ok) + if delivered then [x] else []
  {
    assert (xs + [x])[..|xs|] == xs && (ok + [delivered])[..|xs|] == ok;
  }
}
