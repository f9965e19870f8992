// Whole runs of the client: which handler a MESSAGE reaches, and what the session
// flag and the disconnect notifications say (src/StompClient.cpp). Client events are
// taken one at a time, as the mutex and the atomic flag make them.
module ClientRuns {
  import opened Prelude
  import opened StompFrames
  import opened StompScanner
  import opened StompClients
  import Decimal

  datatype Op =
    | Subscribe(handler: Handler)
    | Unsubscribe(id: string)
    | Incoming(event: Event)
    | Connect                      // up to the point where it opens the transport
    | Disconnect
    | TransportError(reason: string)
    | TransportClosed

  function StepOp(c: Client, op: Op): (r: (Client, seq<Callback>)) {
    match op
    case Subscribe(h) => (Subscribed(c, h), [])
    case Unsubscribe(id) => (Unsubscribed(c, id), [])
    case Incoming(e) => OnEvent(c, e)
    case Connect => (c.(connected := false), [])
    case Disconnect => (c.(connected := false), [])
    case TransportError(reason) => OnTransportError(c, reason)
    case TransportClosed => OnTransportClosed(c)
  }

  /** The state after a run. */
  function After(ops: seq<Op>): (c: Client) {
    if ops == [] then NEW_CLIENT else StepOp(After(ops[..|ops| - 1]), ops[|ops| - 1]).0
  }

  /** The callbacks that op i of a run causes. */
  function CallbacksAt(ops: seq<Op>, i: nat): (cs: seq<Callback>)
    requires i < |ops|
  {
    StepOp(After(ops[..i]), ops[i]).1
  }

  // ---- Subscription ids

  function Subscribes(ops: seq<Op>): (n: nat)
    ensures n <= |ops|
  {
    if ops == [] then 0
    else Subscribes(ops[..|ops| - 1]) + if ops[|ops| - 1].Subscribe? then 1 else 0
  }

  /** The id that the subscribe at i returned. */
  function IdAt(ops: seq<Op>, i: nat): (id: string)
    requires i < |ops|
  {
    SubId(After(ops[..i]).nextSubId)
  }

  lemma {:induction false} CounterIsCount(ops: seq<Op>)
    ensures After(ops).nextSubId == (1 + Subscribes(ops)) % WORD
    decreases |ops|
  {
    if ops != [] {
      var k := |ops| - 1;
      CounterIsCount(ops[..k]);
      NextWord(1 + Subscribes(ops[..k]));
    }
  }

  lemma NextWord(n: nat)
    ensures (n % WORD + 1) % WORD == (n + 1) % WORD
  {
    if n % WORD < WORD - 1 {
      assert n + 1 == WORD * (n / WORD) + (n % WORD + 1);
    } else {
      assert n + 1 == WORD * (n / WORD + 1);
    }
  }

  lemma SubIdInjective(m: nat, n: nat)
    requires SubId(m) == SubId(n)
    ensures m == n
  {
    assert SubId(m)[4..] == Decimal.Print(m) && SubId(n)[4..] == Decimal.Print(n);
    Decimal.PrintInjective(m, n);
  }

  lemma SubscribesNext(ops: seq<Op>, i: nat)
    requires i < |ops|
    ensures Subscribes(ops[..i + 1]) == Subscribes(ops[..i]) + if ops[i].Subscribe? then 1 else 0
  {
    assert ops[..i + 1][..i] == ops[..i];
  }

  lemma {:induction false} SubscribesMonotone(ops: seq<Op>, i: nat, j: nat)
    requires i <= j <= |ops|
    ensures Subscribes(ops[..i]) <= Subscribes(ops[..j])
    decreases j
  {
    if i < j {
      SubscribesMonotone(ops, i, j - 1);
      SubscribesNext(ops, j - 1);
    }
  }

  lemma SubscribesGrow(ops: seq<Op>, i: nat, j: nat)
    requires i < j <= |ops| && ops[i].Subscribe?
    ensures Subscribes(ops[..i]) < Subscribes(ops[..j]) <= Subscribes(ops)
  {
    SubscribesNext(ops, i);
    SubscribesMonotone(ops, i + 1, j);
    SubscribesMonotone(ops, j, |ops|);
    assert ops[..|ops|] == ops;
  }

  lemma DistinctWords(a: nat, b: nat)
    requires a < b < a + WORD
    ensures a % WORD != b % WORD
  {
    assert b - a == WORD * (b / WORD - a / WORD) + (b % WORD - a % WORD);
  }

  /** The number of subscribes before i, as the counter sees it. */
  function Turn(ops: seq<Op>, i: nat): (n: nat)
    requires i < |ops|
  {
    (1 + Subscribes(ops[..i])) % WORD
  }

  /** Two subscribes of a run got the same id exactly when the numbers of subscribes
      before them differ by a multiple of 2^64. */
  lemma SameIdSameTurn(ops: seq<Op>, i: nat, j: nat)
    requires i < j < |ops|
    ensures IdAt(ops, i) == IdAt(ops, j) <==> Turn(ops, i) == Turn(ops, j)
  {
    CounterIsCount(ops[..i]);
    CounterIsCount(ops[..j]);
    if IdAt(ops, i) == IdAt(ops, j) {
      SubIdInjective(After(ops[..i]).nextSubId, After(ops[..j]).nextSubId);
    }
  }

  lemma CountsApart(ops: seq<Op>, i: nat, j: nat)
    requires i < j < |ops| && ops[i].Subscribe? && ops[j].Subscribe?
    ensures Subscribes(ops[..i]) < Subscribes(ops[..j]) < Subscribes(ops)
  {
    SubscribesGrow(ops, i, j);
    SubscribesGrow(ops, j, |ops|);
    assert ops[..|ops|] == ops;
  }

  lemma DistinctTurns(ops: seq<Op>, i: nat, j: nat)
    requires i < j < |ops| && Subscribes(ops[..i]) < Subscribes(ops[..j]) < Subscribes(ops[..i]) + WORD
    ensures Turn(ops, i) != Turn(ops, j)
  {
    var before, after := 1 + Subscribes(ops[..i]), 1 + Subscribes(ops[..j]);
    DistinctWords(before, after);
    assert Turn(ops, i) == before % WORD && Turn(ops, j) == after % WORD;
  }

  /** So up to 2^64 subscribe calls never reuse an id. */
  lemma IdsDistinct(ops: seq<Op>, i: nat, j: nat)
    requires i < j < |ops| && ops[i].Subscribe? && ops[j].Subscribe?
    requires Subscribes(ops) <= WORD
    ensures IdAt(ops, i) != IdAt(ops, j)
  {
    CountsApart(ops, i, j);
    DistinctTurns(ops, i, j);
    SameIdSameTurn(ops, i, j);
  }

  /** And one more call does: the first id comes back. */
  lemma IdComesBack(ops: seq<Op>, i: nat, j: nat)
    requires i < j < |ops| && Subscribes(ops[..j]) == Subscribes(ops[..i]) + WORD
    ensures IdAt(ops, i) == IdAt(ops, j)
  {
    var a := 1 + Subscribes(ops[..i]);
    assert a + WORD == WORD * (a / WORD + 1) + a % WORD;
    SameIdSameTurn(ops, i, j);
  }

  // ---- Dispatch

  /** The subscribe at j gave `id` to `h` and nobody has given it up by the end. */
  predicate Live(ops: seq<Op>, j: nat, id: string, h: Handler) {
    && j < |ops| && ops[j] == Subscribe(h) && IdAt(ops, j) == id
    && forall k :: j < k < |ops| ==> ops[k] != Unsubscribe(id)
  }

  lemma LivePrefix(ops: seq<Op>, op: Op, j: nat, id: string, h: Handler)
    requires j < |ops|
    ensures Live(ops + [op], j, id, h) <==> Live(ops, j, id, h) && op != Unsubscribe(id)
  {
    var all := ops + [op];
    assert all[..j] == ops[..j];
    if Live(ops, j, id, h) && op != Unsubscribe(id) {
      assert forall k :: j < k < |all| ==> all[k] != Unsubscribe(id);
    }
    if Live(all, j, id, h) {
      assert all[|ops|] == op;
      assert forall k :: j < k < |ops| ==> ops[k] == all[k];
    }
  }

  lemma LiveLast(ops: seq<Op>, op: Op, id: string, h: Handler)
    ensures Live(ops + [op], |ops|, id, h) <==> op == Subscribe(h) && SubId(After(ops).nextSubId) == id
  {
    assert (ops + [op])[..|ops|] == ops;
  }

  ghost predicate Registered(ops: seq<Op>, id: string, h: Handler) {
    exists j: nat :: Live(ops, j, id, h)
  }

  lemma RegisteredStep(ops: seq<Op>, op: Op, id: string, h: Handler)
    requires Subscribes(ops + [op]) <= WORD
    ensures Registered(ops + [op], id, h) <==>
      if op.Subscribe? && SubId(After(ops).nextSubId) == id then op.handler == h
      else Registered(ops, id, h) && op != Unsubscribe(id)
  {
    var all := ops + [op];
    LiveLast(ops, op, id, h);
    if Registered(all, id, h) {
      var j: nat :| Live(all, j, id, h);
      if j < |ops| {
        LivePrefix(ops, op, j, id, h);
        if op.Subscribe? {
          IdsDistinct(all, j, |ops|);
          assert all[..|ops|] == ops;
        }
      }
    }
    if Registered(ops, id, h) && op != Unsubscribe(id) {
      var j: nat :| Live(ops, j, id, h);
      LivePrefix(ops, op, j, id, h);
    }
  }

  /** The subscription table holds exactly the registrations that are live. */
  lemma {:induction false} TableIsLive(ops: seq<Op>, id: string, h: Handler)
    requires Subscribes(ops) <= WORD
    ensures id in After(ops).subscriptions && After(ops).subscriptions[id] == h <==> Registered(ops, id, h)
    decreases |ops|
  {
    if ops != [] {
      var k := |ops| - 1;
      assert ops == ops[..k] + [ops[k]];
      TableIsLive(ops[..k], id, h);
      RegisteredStep(ops[..k], ops[k], id, h);
    }
  }

  /** Dispatch over whole runs: a MESSAGE frame runs handler h if and only if the id
      in its first `subscription` header was given to h by an earlier subscribe and
      not unsubscribed since; it runs nothing else. */
  lemma Dispatch(ops: seq<Op>, i: nat, f: Frame, h: Handler)
    requires i < |ops| && ops[i] == Incoming(Received(f)) && f.command == "MESSAGE"
    requires Subscribes(ops[..i]) <= WORD
    ensures CallbacksAt(ops, i) == [Ran(h, MessageOf(f))]
       <==> Registered(ops[..i], MessageOf(f).subscriptionId, h)
    ensures CallbacksAt(ops, i) == [] || exists g :: CallbacksAt(ops, i) == [Ran(g, MessageOf(f))]
  {
    TableIsLive(ops[..i], MessageOf(f).subscriptionId, h);
  }

  /** No other event runs a handler. */
  lemma OnlyMessagesRunHandlers(ops: seq<Op>, i: nat, h: Handler, m: Message)
    requires i < |ops| && Ran(h, m) in CallbacksAt(ops, i)
    ensures ops[i].Incoming? && ops[i].event.Received? && ops[i].event.frame.command == "MESSAGE"
    ensures m == MessageOf(ops[i].event.frame)
  {
  }

  // ---- What else is reported

  /** All callbacks of a run, in order. */
  function AllCalls(ops: seq<Op>): (cs: seq<Callback>) {
    if ops == [] then []
    else AllCalls(ops[..|ops| - 1]) + CallbacksAt(ops, |ops| - 1)
  }

  /** The reports among some callbacks: onError, onConnected and onHeartbeat. */
  function Reports(cs: seq<Callback>): (r: seq<Callback>) {
    if cs == [] then []
    else
      var c := cs[|cs| - 1];
      Reports(cs[..|cs| - 1]) + if c.OnError? || c.OnConnected? || c.OnHeartbeat? then [c] else []
  }

  /** The report that a frame or a heartbeat asks for by what it is. */
  function Calls(op: Op): (r: seq<Callback>) {
    if !op.Incoming? then []
    else if op.event.Heartbeat? then [OnHeartbeat]
    else if op.event.frame.command == "ERROR" then [OnError(op.event.frame)]
    else if op.event.frame.command == "CONNECTED" then [OnConnected(op.event.frame)]
    else []
  }

  function AllReports(ops: seq<Op>): (r: seq<Callback>) {
    if ops == [] then [] else AllReports(ops[..|ops| - 1]) + Calls(ops[|ops| - 1])
  }

  lemma ReportsMore(cs: seq<Callback>, more: seq<Callback>)
    requires |more| <= 1
    ensures Reports(cs + more) == Reports(cs) + Reports(more)
  {
    if more == [] {
      assert cs + more == cs && Reports(cs) + [] == Reports(cs);
    } else {
      assert (cs + more)[..|cs|] == cs && more[..0] == [];
      assert Reports(more) == [] + Reports(more);
    }
  }

  lemma StepReports(c: Client, op: Op)
    ensures |StepOp(c, op).1| <= 1 && Reports(StepOp(c, op).1) == Calls(op)
  {
    var cs := StepOp(c, op).1;
    assert |cs| == 1 ==> cs[..0] == [] && Reports(cs[..0]) == [];
  }

  /** Over every run, every ERROR frame, every CONNECTED frame and every heartbeat is
      reported once, in order, and nothing else is. */
  lemma {:induction false} ReportsExact(ops: seq<Op>)
    ensures Reports(AllCalls(ops)) == AllReports(ops)
    decreases |ops|
  {
    if ops != [] {
      var k := |ops| - 1;
      ReportsExact(ops[..k]);
      StepReports(After(ops[..k]), ops[k]);
      ReportsMore(AllCalls(ops[..k]), CallbacksAt(ops, k));
    }
  }

  // ---- The fields of a message

  /** The first header with this key, or nothing. */
  predicate Names(headers: Headers, key: string, value: string) {
    if exists i :: 0 <= i < |headers| && headers[i].0 == key then
      exists i :: 0 <= i < |headers| && headers[i] == (key, value) && forall j :: 0 <= j < i ==> headers[j].0 != key
    else value == ""
  }

  lemma {:induction false} FirstNames(headers: Headers, key: string)
    ensures Names(headers, key, FirstOr(headers, key, ""))
    decreases |headers|
  {
    if headers != [] && headers[0].0 == key {
      assert headers[0] == (key, FirstOr(headers, key, ""));
    } else if headers != [] && First(headers, key).Some? {
      var rest := headers[1..];
      FirstNames(rest, key);
      assert exists i :: 0 <= i < |rest| && rest[i].0 == key;
      var v := FirstOr(rest, key, "");
      var i :| 0 <= i < |rest| && rest[i] == (key, v) && forall j :: 0 <= j < i ==> rest[j].0 != key;
      assert headers[i + 1] == rest[i];
      assert forall j :: 0 < j < i + 1 ==> headers[j] == rest[j - 1];
    }
  }

  /** The handler gets the first destination, subscription and message-id, the headers
      and the body. */
  lemma MessageIsFrame(f: Frame)
    ensures var m := MessageOf(f);
      && Names(f.headers, "destination", m.destination) && Names(f.headers, "subscription", m.subscriptionId)
      && Names(f.headers, "message-id", m.messageId) && m.headers == f.headers && m.body == f.body
  {
    FirstNames(f.headers, "destination");
    FirstNames(f.headers, "subscription");
    FirstNames(f.headers, "message-id");
  }

  // ---- The session flag

  datatype Mark = Up | Down | Neither

  /** What an event says about the session. */
  function MarkOf(op: Op): (m: Mark) {
    match op
    case Incoming(e) => if e.Received? && e.frame.command == "CONNECTED" then Up else Neither
    case Subscribe(_) => Neither
    case Unsubscribe(_) => Neither
    case _ => Down
  }

  /** The last event that says anything. */
  function Latest(ops: seq<Op>): (m: Mark) {
    if ops == [] then Down
    else
      var m := MarkOf(ops[|ops| - 1]);
      if m.Neither? then Latest(ops[..|ops| - 1]) else m
  }

  /** isConnected holds exactly when the latest of connect, disconnect, transport
      error, transport close and CONNECTED frame is CONNECTED. */
  lemma {:induction false} ConnectedIsLatest(ops: seq<Op>)
    ensures After(ops).connected <==> Latest(ops) == Up
    decreases |ops|
  {
    if ops != [] {
      ConnectedIsLatest(ops[..|ops| - 1]);
    }
  }

  function Notifications(cs: seq<Callback>): (n: nat) {
    if cs == [] then 0 else Notifications(cs[..|cs| - 1]) + if cs[|cs| - 1].OnDisconnected? then 1 else 0
  }

  /** Disconnect notifications of a whole run. */
  function NotificationsOf(ops: seq<Op>): (n: nat)
    decreases |ops|
  {
    if ops == [] then 0
    else
      var k := |ops| - 1;
      assert ops[..k + 1] == ops;
      NotificationsOf(ops[..k]) + Notifications(CallbacksAt(ops, k))
  }

  function ErrorsAndLiveCloses(ops: seq<Op>): (n: nat)
    decreases |ops|
  {
    if ops == [] then 0
    else
      var k := |ops| - 1;
      var counts := ops[k].TransportError? || (ops[k].TransportClosed? && Latest(ops[..k]) == Up);
      ErrorsAndLiveCloses(ops[..k]) + if counts then 1 else 0
  }

  /** Conservation: notifications are the transport errors plus the closes that found
      the session up. */
  lemma {:induction false} NotificationsConserved(ops: seq<Op>)
    ensures NotificationsOf(ops) == ErrorsAndLiveCloses(ops)
    decreases |ops|
  {
    if ops != [] {
      var k := |ops| - 1;
      NotificationsConserved(ops[..k]);
      ConnectedIsLatest(ops[..k]);
      CountOne(CallbacksAt(ops, k));
    }
  }

  lemma CountOne(cs: seq<Callback>)
    requires |cs| <= 1
    ensures Notifications(cs) == if |cs| == 1 && cs[0].OnDisconnected? then 1 else 0
  {
    if |cs| == 1 {
      assert cs[..0] == [];
      assert Notifications(cs[..0]) == 0;
    }
  }

  lemma {:induction false} LatestStaysDown(ops: seq<Op>, i: nat)
    requires i < |ops| && MarkOf(ops[i]) == Down
    requires forall k :: i < k < |ops| ==> MarkOf(ops[k]) != Up
    ensures Latest(ops) == Down
    decreases |ops|
  {
    var k := |ops| - 1;
    if MarkOf(ops[k]).Neither? {
      LatestStaysDown(ops[..k], i);
    }
  }

  /** After an error, a local disconnect or a close, a later close adds nothing
      unless the server said CONNECTED in between. */
  lemma NoSecondNotification(ops: seq<Op>, i: nat, j: nat)
    requires i < j < |ops| && MarkOf(ops[i]) == Down && ops[j].TransportClosed?
    requires forall k :: i < k < j ==> MarkOf(ops[k]) != Up
    ensures CallbacksAt(ops, j) == []
  {
    LatestStaysDown(ops[..j], i);
    ConnectedIsLatest(ops[..j]);
  }
}
