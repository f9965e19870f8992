// Publish/subscribe with bytes on the way in both directions: the client's frames to
// the broker, and the broker's messages to the client as WebSocket frames that the
// client reads in pieces of any size.
module Downlinks {
  import opened Prelude
  import opened StompFrames
  import opened StompScanner
  import opened StompParsing
  import opened StompRoundTrip
  import opened StompClients
  import opened Brokers
  import opened PubSub
  import opened TextFrames
  import opened Unicode
  import FullStack
  import WsFrames
  import WsReceiver

  type Bytes = WsFrames.Bytes

  // ok: which sends do not raise; frames: the WebSocket frames their messages travel in.
  datatype Broadcast = Broadcast(destination: string, payload: string, round: nat, tags: seq<nat>, ok: seq<bool>,
                                 frames: seq<Bytes>)

  datatype Op =
    | Uplink(op: NetOp)
    | Publish(p: Broadcast)
    | Ping(frame: Bytes)
    | Read(size: nat)

  // published: every message so far; consumed and down: the bytes of the connection
  // that the client has read and those on their way; calls: its callbacks.
  datatype Net = Net(up: Network, published: seq<Frame>, consumed: Bytes, down: Bytes, session: WsReceiver.Drain,
                     parser: StompParsing.Config, calls: seq<Callback>)

  const FRESH_NET := Net(Network(CONNECTED_WORLD, []), [], [], [], WsReceiver.FRESH, StompParsing.START, [])

  /** The frame is one complete data frame with this text, in whatever form. */
  predicate Carries(frame: Bytes, text: string) {
    && FullStack.IsText(text)
    && (WsFrames.Decode(frame) == Some(WsFrames.Frame(0x01, FullStack.Octets(text), |frame|))
        || WsFrames.Decode(frame) == Some(WsFrames.Frame(0x02, FullStack.Octets(text), |frame|)))
  }

  predicate IsPing(frame: Bytes) {
    var f := WsFrames.Decode(frame);
    f.Some? && f.value.opcode == 0x09 && f.value.size == |frame|
  }

  function Targets(n: Net, destination: string): (ids: seq<string>) {
    Matching(n.up.world.broker.subscriptions, destination)
  }

  predicate AllCarry(frames: seq<Bytes>, fs: seq<Frame>) {
    |frames| == |fs| && forall i :: 0 <= i < |frames| ==> Carries(frames[i], Wire(fs[i]))
  }

  /** The payloads that a read completes. */
  function Completed(session: WsReceiver.Drain, chunk: Bytes): (payloads: seq<Bytes>) {
    if session.closed then [] else WsReceiver.Payloads(WsReceiver.DrainAll(session.rest + chunk).events)
  }

  function Reading(n: Net, chunk: Bytes, rest: Bytes): (r: Net) {
    var fed := Fed(n.parser, FullStack.Texts(Completed(n.session, chunk)));
    var handled := OnEvents(n.up.world.client, fed.1);
    Net(Network(n.up.world.(client := handled.0), n.up.pipe), n.published, n.consumed + chunk, rest,
        WsReceiver.Receive(n.session, chunk), fed.0, n.calls + handled.1)
  }

  predicate Fits(n: Net, p: Broadcast) {
    |p.tags| == |p.ok| == |Targets(n, p.destination)|
  }

  /** The messages of a broadcast whose sends do not raise. */
  function Messages(n: Net, p: Broadcast): (fs: seq<Frame>)
    requires Fits(n, p)
  {
    Chosen(MessageFrames(Targets(n, p.destination), p.destination, p.round, p.tags, p.payload), p.ok)
  }

  predicate CanPublish(n: Net, p: Broadcast) {
    n.up.world.broker.connected && Fits(n, p) && AllCarry(p.frames, Messages(n, p))
  }

  /** A send that raises leaves out its message and ends the session for the broker. */
  function Publishing(n: Net, p: Broadcast): (r: Net)
    requires CanPublish(n, p)
  {
    var broker := n.up.world.broker.(connected := false !in p.ok);
    n.(published := n.published + Messages(n, p), down := n.down + Flatten(p.frames),
       up := n.up.(world := n.up.world.(broker := broker)))
  }

  function StepNet(n: Net, op: Op): (r: Net) {
    match op
    case Uplink(o) => n.(up := StepNetwork(n.up, o))
    case Publish(p) => if CanPublish(n, p) then Publishing(n, p) else n
    case Ping(frame) => if IsPing(frame) then n.(down := n.down + frame) else n
    case Read(size) => if size <= |n.down| then Reading(n, n.down[..size], n.down[size..]) else n
  }

  function RunNet(ops: seq<Op>): (n: Net) {
    if ops == [] then FRESH_NET else StepNet(RunNet(ops[..|ops| - 1]), ops[|ops| - 1])
  }

  predicate CleanNetOp(op: Op) {
    match op
    case Uplink(o) => o.Calls? ==> CleanOp(o.op)
    case Publish(p) => Plain(p.destination) && |Utf8(p.payload)| < WORD
    case _ => true
  }

  /** How many messages the client has read. */
  function Seen(n: Net): (k: nat) { |WsReceiver.Payloads(n.session.events)| }

  /** The handler calls that messages cause when they are read now: the handler of the
      message's subscription when that id is live, none otherwise. */
  function HandlerCalls(c: Client, fs: seq<Frame>): (calls: seq<Callback>) {
    if fs == [] then []
    else
      var k := |fs| - 1;
      var m := MessageOf(fs[k]);
      HandlerCalls(c, fs[..k])
      + if m.subscriptionId in c.subscriptions then [Ran(c.subscriptions[m.subscriptionId], m)] else []
  }

  // ---- Every frame on its way to the broker is one of the client's

  ghost predicate FromSubscribe(payload: string) {
    exists id, destination, extra ::
      PlainId(id) && Plain(destination) && Harmless(extra)
      && payload == Wire(SubscribeFrame(id, Utf8(destination), Utf8Headers(extra)))
  }

  ghost predicate FromUnsubscribe(payload: string) {
    exists id :: PlainId(id) && payload == Wire(UnsubscribeFrame(id))
  }

  predicate PlainIds(table: Headers) { forall row :: row in table ==> PlainId(row.0) }

  ghost predicate UplinkOk(n: Network) {
    && (forall i :: 0 <= i < |n.world.ids| ==> PlainId(n.world.ids[i]))
    && (forall i :: 0 <= i < |n.pipe| ==> FromSubscribe(n.pipe[i]) || FromUnsubscribe(n.pipe[i]))
    && PlainIds(n.world.broker.subscriptions)
  }

  lemma OneMoreFrame(n: Network, r: Network, ids: seq<string>, text: string)
    requires UplinkOk(n) && (FromSubscribe(text) || FromUnsubscribe(text))
    requires r.pipe == n.pipe + [text] && r.world.broker == n.world.broker && r.world.ids == n.world.ids + ids
    requires forall i :: 0 <= i < |ids| ==> PlainId(ids[i])
    ensures UplinkOk(r)
  {
  }

  lemma SubscribeKeepsUplink(n: Network, destination: string, handler: Handler, extra: Headers)
    requires UplinkOk(n) && Plain(destination) && Harmless(extra)
    ensures UplinkOk(StepNetwork(n, Calls(Sub(destination, handler, extra))))
  {
    var id := SubId(n.world.client.nextSubId);
    SubIdPlain(n.world.client.nextSubId);
    var payload := Wire(SubscribeFrame(id, Utf8(destination), Utf8Headers(extra)));
    assert FromSubscribe(payload);
    OneMoreFrame(n, StepNetwork(n, Calls(Sub(destination, handler, extra))), [id], payload);
  }

  lemma CallKeepsUplink(n: Network, call: PubOp)
    requires UplinkOk(n) && CleanOp(call)
    ensures UplinkOk(StepNetwork(n, Calls(call)))
  {
    if call.Sub? {
      SubscribeKeepsUplink(n, call.destination, call.handler, call.extra);
    } else if call.n < |n.world.ids| {
      assert FromUnsubscribe(Wire(UnsubscribeFrame(n.world.ids[call.n])));
      assert n.world.ids + [] == n.world.ids;
      OneMoreFrame(n, StepNetwork(n, Calls(call)), [], Wire(UnsubscribeFrame(n.world.ids[call.n])));
    }
  }

  lemma DeliverKeepsIds(b: Broker, payload: string)
    requires PlainIds(b.subscriptions) && (FromSubscribe(payload) || FromUnsubscribe(payload))
    ensures PlainIds(HandlePayload(b, payload).subscriptions) && HandlePayload(b, payload).connected == b.connected
  {
    if FromSubscribe(payload) {
      var id, destination, extra :|
        PlainId(id) && Plain(destination) && Harmless(extra)
        && payload == Wire(SubscribeFrame(id, Utf8(destination), Utf8Headers(extra)));
      SubscribeArrives(b, id, destination, extra);
      AssignKeepsIds(b.subscriptions, id, destination);
    } else {
      var id :| PlainId(id) && payload == Wire(UnsubscribeFrame(id));
      UnsubscribeArrives(b, id);
      WithoutFirst(b.subscriptions, id, id);
    }
  }

  lemma AssignKeepsIds(table: Headers, id: string, destination: string)
    requires PlainIds(table) && PlainId(id)
    ensures PlainIds(Assign(table, id, destination))
  {
    forall row | row in Assign(table, id, destination) ensures PlainId(row.0) {
      AssignFrom(table, id, destination, row);
    }
  }

  lemma UplinkKeeps(n: Network, op: NetOp)
    requires UplinkOk(n) && (op.Calls? ==> CleanOp(op.op))
    ensures UplinkOk(StepNetwork(n, op)) && StepNetwork(n, op).world.broker.connected == n.world.broker.connected
  {
    if op.Calls? {
      CallKeepsUplink(n, op.op);
    } else if n.pipe != [] {
      DeliverKeepsIds(n.world.broker, n.pipe[0]);
    }
  }

  lemma {:induction false} MatchingPlain(table: Headers, destination: string)
    requires PlainIds(table)
    ensures forall i :: 0 <= i < |Matching(table, destination)| ==> PlainId(Matching(table, destination)[i])
    decreases |table|
  {
    if table != [] {
      var k := |table| - 1;
      assert forall row :: row in table[..k] ==> row in table;
      MatchingPlain(table[..k], destination);
      assert table[k] in table;
    }
  }

  // ---- What is on the wire to the client

  predicate IsMessage(f: Frame) { WellFormed(f) && f.command == "MESSAGE" && FullStack.IsText(Wire(f)) }

  predicate AllMessages(fs: seq<Frame>) { forall i :: 0 <= i < |fs| ==> IsMessage(fs[i]) }

  predicate PayloadsOf(payloads: seq<Bytes>, fs: seq<Frame>) {
    |payloads| == |fs|
    && forall i :: 0 <= i < |fs| ==> FullStack.IsText(Wire(fs[i])) && payloads[i] == FullStack.Octets(Wire(fs[i]))
  }

  ghost predicate OnTheWire(total: Bytes, fs: seq<Frame>) {
    var d := WsReceiver.DrainAll(total);
    !d.closed && d.rest == [] && PayloadsOf(WsReceiver.Payloads(d.events), fs)
  }

  /** One complete frame more on the wire. */
  lemma DrainOneMore(total: Bytes, frame: Bytes)
    requires var d := WsReceiver.DrainAll(total); !d.closed && d.rest == []
    requires var f := WsFrames.Decode(frame); f.Some? && f.value.size == |frame| && f.value.opcode != 0x08
    ensures var d, f := WsReceiver.DrainAll(total), WsFrames.Decode(frame).value;
      WsReceiver.DrainAll(total + frame) == WsReceiver.Drain(d.events + WsReceiver.Meaning(f), [], false)
  {
    var d, f := WsReceiver.DrainAll(total), WsFrames.Decode(frame).value;
    WsReceiver.DrainAppend(total, frame);
    assert [] + frame == frame && frame[f.size..] == [];
    assert WsReceiver.DrainAll([]) == WsReceiver.Drain([], [], false);
    assert WsReceiver.Meaning(f) + [] == WsReceiver.Meaning(f);
  }

  lemma DataOnTheWire(total: Bytes, fs: seq<Frame>, frame: Bytes, f: Frame)
    requires OnTheWire(total, fs) && Carries(frame, Wire(f))
    ensures OnTheWire(total + frame, fs + [f])
  {
    var d := WsReceiver.DrainAll(total);
    var data := WsFrames.Decode(frame).value;
    DrainOneMore(total, frame);
    WsReceiver.TakenMore(d.events, data);
  }

  lemma PingOnTheWire(total: Bytes, fs: seq<Frame>, frame: Bytes)
    requires OnTheWire(total, fs) && IsPing(frame)
    ensures OnTheWire(total + frame, fs)
  {
    var d := WsReceiver.DrainAll(total);
    var ping := WsFrames.Decode(frame).value;
    DrainOneMore(total, frame);
    WsReceiver.PayloadsAppend(d.events, WsReceiver.Meaning(ping));
    WsReceiver.MeaningParts(ping);
    assert WsReceiver.Payloads(d.events) + [] == WsReceiver.Payloads(d.events);
  }

  lemma {:induction false} BroadcastOnTheWire(total: Bytes, before: seq<Frame>, frames: seq<Bytes>, fs: seq<Frame>)
    requires OnTheWire(total, before) && AllCarry(frames, fs)
    ensures OnTheWire(total + Flatten(frames), before + fs)
    decreases |frames|
  {
    if frames == [] {
      assert total + Flatten(frames) == total && before + fs == before;
    } else {
      DataOnTheWire(total, before, frames[0], fs[0]);
      BroadcastOnTheWire(total + frames[0], before + [fs[0]], frames[1..], fs[1..]);
      Regroup(total, frames[0], Flatten(frames[1..]));
      Regroup(before, [fs[0]], fs[1..]);
      assert fs == [fs[0]] + fs[1..];
    }
  }

  // ---- The invariant

  ghost predicate DownlinkOk(n: Net) {
    && OnTheWire(n.consumed + n.down, n.published)
    && AllMessages(n.published)
    && WsReceiver.SameSession(n.session, WsReceiver.DrainAll(n.consumed))
    && n.parser == StompParsing.START
  }

  /** What the client has read is the first messages, complete and in order; with
      nothing on the way it is all of them. */
  lemma SeenIsPrefix(n: Net)
    requires DownlinkOk(n)
    ensures !n.session.closed && Seen(n) <= |n.published|
    ensures PayloadsOf(WsReceiver.Payloads(n.session.events), n.published[..Seen(n)])
    ensures n.down == [] ==> Seen(n) == |n.published|
  {
    var d := WsReceiver.DrainAll(n.consumed);
    WsReceiver.DrainAppend(n.consumed, n.down);
    if !d.closed {
      WsReceiver.PayloadsAppend(d.events, WsReceiver.DrainAll(d.rest + n.down).events);
    }
    assert n.down == [] ==> n.consumed + n.down == n.consumed;
  }

  lemma {:induction false} TextsOfPayloads(payloads: seq<Bytes>, fs: seq<Frame>)
    requires PayloadsOf(payloads, fs)
    ensures FullStack.Texts(payloads) == Flatten(Wires(fs))
    decreases |fs|
  {
    if fs == [] {
      assert Wires(fs) == [];
    } else {
      FullStack.TextOfOctets(Wire(fs[0]));
      assert Wires(fs)[1..] == Wires(fs[1..]);
      TextsOfPayloads(payloads[1..], fs[1..]);
    }
  }

  lemma {:induction false} MessagesHandled(c: Client, fs: seq<Frame>)
    requires AllMessages(fs)
    ensures OnEvents(c, AllReceived(fs)) == (c, HandlerCalls(c, fs))
    decreases |fs|
  {
    if fs != [] {
      var k := |fs| - 1;
      MessagesHandled(c, fs[..k]);
      assert AllReceived(fs)[..k] == AllReceived(fs[..k]);
      assert IsMessage(fs[k]);
    }
  }

  /** Feeding whole messages leaves the parser at its start and runs their handlers. */
  lemma MessagesRead(c: Client, payloads: seq<Bytes>, fs: seq<Frame>)
    requires PayloadsOf(payloads, fs) && AllMessages(fs)
    ensures var fed := Fed(StompParsing.START, FullStack.Texts(payloads));
      fed.0 == StompParsing.START && OnEvents(c, fed.1) == (c, HandlerCalls(c, fs))
  {
    assert forall i :: 0 <= i < |fs| ==> IsMessage(fs[i]) && WellFormed(fs[i]);
    TextsOfPayloads(payloads, fs);
    WiresParsed(fs);
    assert "" + Flatten(Wires(fs)) == Flatten(Wires(fs));
    MessagesHandled(c, fs);
  }

  lemma ReadPayloads(n: Net, chunk: Bytes)
    requires !n.session.closed
    ensures WsReceiver.Payloads(WsReceiver.Receive(n.session, chunk).events)
         == WsReceiver.Payloads(n.session.events) + Completed(n.session, chunk)
  {
    WsReceiver.PayloadsAppend(n.session.events, WsReceiver.DrainAll(n.session.rest + chunk).events);
  }

  lemma ReadSession(n: Net, chunk: Bytes, rest: Bytes)
    requires DownlinkOk(n) && n.down == chunk + rest
    ensures WsReceiver.SameSession(WsReceiver.Receive(n.session, chunk), WsReceiver.DrainAll(n.consumed + chunk))
    ensures n.consumed + chunk + rest == n.consumed + n.down
  {
    WsReceiver.ReceiveIsDrain(n.consumed, n.session, chunk);
    Regroup(n.consumed, chunk, rest);
  }

  lemma SlicePayloads(all: seq<Bytes>, fs: seq<Frame>, k: nat)
    requires PayloadsOf(all, fs) && k <= |all|
    ensures PayloadsOf(all[k..], fs[k..])
  {
  }

  lemma SliceMessages(fs: seq<Frame>, i: nat, j: nat)
    requires AllMessages(fs) && i <= j <= |fs|
    ensures AllMessages(fs[i..j])
  {
    forall k | 0 <= k < j - i ensures IsMessage(fs[i..j][k]) {
      assert fs[i..j][k] == fs[i + k];
    }
  }

  /** One read: the messages it completes are the next ones, and each runs the handler
      of its id exactly when that id is live now. */
  lemma ReadHandles(n: Net, chunk: Bytes, rest: Bytes)
    requires DownlinkOk(n) && n.down == chunk + rest
    ensures var r := Reading(n, chunk, rest);
      && DownlinkOk(r) && r.up == n.up && Seen(n) <= Seen(r) <= |n.published|
      && r.calls == n.calls + HandlerCalls(n.up.world.client, n.published[Seen(n)..Seen(r)])
      && (rest == [] ==> Seen(r) == |n.published|)
  {
    var r, arrived := Reading(n, chunk, rest), Completed(n.session, chunk);
    ReadSession(n, chunk, rest);
    SeenIsPrefix(n);
    ReadPayloads(n, chunk);
    SeenIsPrefix(r.(parser := StompParsing.START));
    var all, k := WsReceiver.Payloads(r.session.events), Seen(n);
    SlicePayloads(all, n.published[..Seen(r)], k);
    assert all[k..] == arrived && n.published[..Seen(r)][k..] == n.published[k..Seen(r)];
    SliceMessages(n.published, k, Seen(r));
    MessagesRead(n.up.world.client, arrived, n.published[k..Seen(r)]);
  }

  ghost predicate NetOk(n: Net) { UplinkOk(n.up) && DownlinkOk(n) }

  lemma {:induction false} ChosenAre<T>(xs: seq<T>, ok: seq<bool>)
    requires |ok| == |xs|
    ensures forall x :: x in Chosen(xs, ok) ==> x in xs
    decreases |xs|
  {
    if xs != [] {
      ChosenAre(xs[..|xs| - 1], ok[..|xs| - 1]);
    }
  }

  lemma EncodedIsBytes(f: Frame)
    ensures FullStack.IsText(Wire(BytesOf(f)))
  {
    Utf8Wire(f);
    Utf8Bytes(Wire(f));
  }

  lemma BroadcastMessages(n: Net, p: Broadcast)
    requires UplinkOk(n.up) && Plain(p.destination) && |Utf8(p.payload)| < WORD && Fits(n, p)
    ensures AllMessages(Messages(n, p))
  {
    var ids := Targets(n, p.destination);
    var fs := MessageFrames(ids, p.destination, p.round, p.tags, p.payload);
    MatchingPlain(n.up.world.broker.subscriptions, p.destination);
    BroadcastServes(ids, p.destination, p.round, p.tags, p.payload);
    forall i | 0 <= i < |fs| ensures IsMessage(fs[i]) {
      assert ServedBy(fs[i], ids[i], p.destination, p.payload);
      EncodedIsBytes(MessageFrame(p.destination, ids[i], MessageId(p.round, p.tags[i]), p.payload));
    }
    ChosenAre(fs, p.ok);
    forall i | 0 <= i < |Messages(n, p)| ensures IsMessage(Messages(n, p)[i]) {
      assert Messages(n, p)[i] in fs;
    }
  }

  /** More bytes on the way that carry more messages. */
  lemma SentMore(n: Net, fs: seq<Frame>, bytes: Bytes)
    requires NetOk(n) && AllMessages(fs) && OnTheWire(n.consumed + n.down + bytes, n.published + fs)
    ensures NetOk(n.(published := n.published + fs, down := n.down + bytes))
  {
    Regroup(n.consumed, n.down, bytes);
  }

  lemma PublishKeeps(n: Net, p: Broadcast)
    requires NetOk(n) && Plain(p.destination) && |Utf8(p.payload)| < WORD && CanPublish(n, p)
    ensures NetOk(Publishing(n, p))
  {
    BroadcastMessages(n, p);
    BroadcastOnTheWire(n.consumed + n.down, n.published, p.frames, Messages(n, p));
    SentMore(n, Messages(n, p), Flatten(p.frames));
  }

  lemma PingKeeps(n: Net, frame: Bytes)
    requires NetOk(n) && IsPing(frame)
    ensures NetOk(n.(down := n.down + frame))
  {
    PingOnTheWire(n.consumed + n.down, n.published, frame);
    assert n.published + [] == n.published;
    SentMore(n, [], frame);
  }

  lemma ReadKeeps(n: Net, size: nat)
    requires NetOk(n) && size <= |n.down|
    ensures NetOk(Reading(n, n.down[..size], n.down[size..]))
  {
    var chunk, rest := n.down[..size], n.down[size..];
    assert n.down == chunk + rest;
    ReadHandles(n, chunk, rest);
  }

  lemma StepKeepsNet(n: Net, op: Op)
    requires NetOk(n) && CleanNetOp(op)
    ensures NetOk(StepNet(n, op))
  {
    match op
    case Uplink(o) => UplinkKeeps(n.up, o);
    case Publish(p) =>
      if CanPublish(n, p) {
        PublishKeeps(n, p);
      }
    case Ping(frame) =>
      if IsPing(frame) {
        PingKeeps(n, frame);
      }
    case Read(size) =>
      if size <= |n.down| {
        ReadKeeps(n, size);
      }
  }

  lemma {:induction false} RunKeepsNet(ops: seq<Op>)
    requires forall i :: 0 <= i < |ops| ==> CleanNetOp(ops[i])
    ensures NetOk(RunNet(ops))
    decreases |ops|
  {
    if ops == [] {
      assert WsReceiver.DrainAll([]) == WsReceiver.FRESH;
      assert FRESH_NET.consumed + FRESH_NET.down == [];
    } else {
      RunKeepsNet(ops[..|ops| - 1]);
      StepKeepsNet(RunNet(ops[..|ops| - 1]), ops[|ops| - 1]);
    }
  }

  lemma ReadStep(n: Net, size: nat)
    requires size <= |n.down|
    ensures StepNet(n, Read(size)) == Reading(n, n.down[..size], n.down[size..])
    ensures n.down == n.down[..size] + n.down[size..]
  {
  }

  lemma LiveInState(n: Net, size: nat)
    requires DownlinkOk(n) && size <= |n.down|
    ensures var r := StepNet(n, Read(size));
      && Seen(n) <= Seen(r) <= |n.published| && r.published == n.published && r.up == n.up
      && r.calls == n.calls + HandlerCalls(n.up.world.client, n.published[Seen(n)..Seen(r)])
      && (size == |n.down| ==> Seen(r) == |n.published|)
  {
    ReadStep(n, size);
    ReadHandles(n, n.down[..size], n.down[size..]);
  }

  /** Publish/subscribe with everything in flight: after any run, a read of any size
      takes the next messages in order, each once, and runs for each of them the
      handler of its id exactly when that id is live when the message is read. A read
      of all that is on the way leaves no message unread. */
  lemma LiveWhenRead(ops: seq<Op>, size: nat)
    requires forall i :: 0 <= i < |ops| ==> CleanNetOp(ops[i])
    requires size <= |RunNet(ops).down|
    ensures var n := RunNet(ops); var r := StepNet(n, Read(size));
      && Seen(n) <= Seen(r) <= |n.published| && r.published == n.published && r.up == n.up
      && r.calls == n.calls + HandlerCalls(n.up.world.client, n.published[Seen(n)..Seen(r)])
      && (size == |n.down| ==> Seen(r) == |n.published|)
  {
    RunKeepsNet(ops);
    LiveInState(RunNet(ops), size);
  }

  lemma {:induction false} SilentSince(all: seq<Op>, k: nat)
    requires k <= |all| && forall i :: 0 <= i < |all| ==> CleanNetOp(all[i])
    requires !RunNet(all[..k]).up.world.broker.connected
    ensures RunNet(all).published == RunNet(all[..k]).published && !RunNet(all).up.world.broker.connected
    decreases |all|
  {
    if k == |all| {
      assert all[..k] == all;
    } else {
      var front, last := all[..|all| - 1], all[|all| - 1];
      assert front[..k] == all[..k];
      SilentSince(front, k);
      RunKeepsNet(front);
      SilentStep(RunNet(front), last);
    }
  }

  /** A broadcast in which a send raises is the last: nothing is published after it. */
  lemma SilentAfterFailure(ops: seq<Op>, more: seq<Op>)
    requires forall i :: 0 <= i < |ops| ==> CleanNetOp(ops[i])
    requires forall i :: 0 <= i < |more| ==> CleanNetOp(more[i])
    requires !RunNet(ops).up.world.broker.connected
    ensures RunNet(ops + more).published == RunNet(ops).published && !RunNet(ops + more).up.world.broker.connected
  {
    assert (ops + more)[..|ops|] == ops;
    SilentSince(ops + more, |ops|);
  }

  lemma SilentStep(n: Net, op: Op)
    requires NetOk(n) && CleanNetOp(op) && !n.up.world.broker.connected
    ensures StepNet(n, op).published == n.published && !StepNet(n, op).up.world.broker.connected
  {
    if op.Uplink? {
      UplinkKeeps(n.up, op.op);
    }
  }

  /** The server's own framing is one way to carry a message. */
  lemma ServerCarries(text: string)
    requires FullStack.IsText(text) && |text| < WORD
    ensures Carries(WsFrames.ServerFrame(FullStack.Octets(text)), text)
  {
    WsFrames.ServerFrameRead(FullStack.Octets(text));
  }
}
