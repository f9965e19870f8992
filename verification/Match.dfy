// The ping-pong match: the game half of the broker (examples/server/stomp_server.py)
// against the example client (examples/main.cpp). JSON texts are the announcements and
// requests they encode; every random draw and every delivery is free.
module Matches {
  import opened Prelude

  datatype Direction = LEFT | MIDDLE | RIGHT
  datatype Shot = SERVE | RALLY
  datatype Side = CLIENT | SERVER

  datatype Announcement =
    | GameStart
    | Ping(shot: Shot, round: nat, rallyHits: nat, direction: Direction)
    | Score(round: nat, point: Side, rallyHits: nat, clientScore: nat, serverScore: nat)
    | MatchFinish(winner: Side, round: nat, point: Side, rallyHits: nat, clientScore: nat, serverScore: nat)
    | GameOver

  // Pong: whether the status is PONG and the lane its direction names, if any.
  datatype Request = Pong(pong: bool, direction: Option<Direction>) | Rematch(again: bool) | Disconnect

  // Coroutines waiting to go on: _start_game before and after its announcement, the
  // two delays, and the pong handler inside its score broadcast.
  datatype Task = Starting | Announced | NextServe | RallyReturn | Scored

  const TARGET: nat := 11

  datatype Host = Host(connected: bool, clientScore: nat, serverScore: nat, currentDirection: Option<Direction>,
                       lastServerDirection: Option<Direction>, serverPosition: Direction, rallyHits: nat,
                       roundNumber: nat, tasks: seq<Task>,
                       sent: seq<Announcement>)

  // ---- What each coroutine does

  /** broadcast_message to one subscriber: a send that raises ends the connection. */
  function Broadcast(h: Host, a: Announcement, arrives: bool): (r: Host) {
    if !h.connected then h
    else if arrives then h.(sent := h.sent + [a])
    else h.(connected := false)
  }

  function PlayBall(h: Host, shot: Shot, d: Direction, arrives: bool): (r: Host) {
    Broadcast(h.(currentDirection := Some(d), lastServerDirection := Some(d)),
              Ping(shot, h.roundNumber, h.rallyHits, d), arrives)
  }

  function Serve(h: Host, d: Direction, arrives: bool): (r: Host) {
    PlayBall(h.(roundNumber := h.roundNumber + 1, rallyHits := 0, serverPosition := MIDDLE), SERVE, d, arrives)
  }

  /** A task that goes on, already taken off the waiting ones. */
  function Resume(h: Host, t: Task, d: Direction, arrives: bool): (r: Host) {
    match t
    case Starting =>
      var r := Broadcast(h, GameStart, arrives);
      r.(tasks := r.tasks + [Announced])
    case Announced => Serve(h, d, arrives)
    case NextServe => if h.connected then Serve(h, d, arrives) else h
    case RallyReturn => if h.connected then PlayBall(h, RALLY, d, arrives) else h
    case Scored => h.(tasks := h.tasks + [NextServe])
  }

  /** The rally is over: announce the score, or the match when a side has enough. */
  function Point(h: Host, side: Side, arrives: bool): (r: Host) {
    if h.clientScore >= TARGET || h.serverScore >= TARGET then
      Broadcast(h, MatchFinish(if h.clientScore >= TARGET then CLIENT else SERVER, h.roundNumber, side, h.rallyHits,
                               h.clientScore, h.serverScore), arrives)
    else
      var r := Broadcast(h, Score(h.roundNumber, side, h.rallyHits, h.clientScore, h.serverScore), arrives);
      r.(tasks := r.tasks + [Scored])
  }

  function OnPong(h: Host, pong: bool, direction: Option<Direction>, reached: bool, arrives: bool): (r: Host) {
    if pong && direction.Some? then
      var moved := h.(serverPosition := direction.value);
      if reached then moved.(rallyHits := h.rallyHits + 1, tasks := h.tasks + [RallyReturn])
      else Point(moved.(clientScore := h.clientScore + 1), CLIENT, arrives)
    else Point(h.(serverScore := h.serverScore + 1), SERVER, arrives)
  }

  /** game_task.cancel() */
  function WithoutGame(tasks: seq<Task>): (r: seq<Task>) {
    if tasks == [] then []
    else (if tasks[0].Starting? || tasks[0].Announced? then [] else [tasks[0]]) + WithoutGame(tasks[1..])
  }

  lemma {:induction false} WithoutGameExact(tasks: seq<Task>, t: Task)
    ensures t in WithoutGame(tasks) <==> t in tasks && !t.Starting? && !t.Announced?
    decreases |tasks|
  {
    if tasks != [] {
      WithoutGameExact(tasks[1..], t);
      assert t in tasks <==> t == tasks[0] || t in tasks[1..];
    }
  }

  function OnRematch(h: Host, again: bool, arrives: bool): (r: Host) {
    if again then
      h.(clientScore := 0, serverScore := 0, roundNumber := 0, lastServerDirection := None, serverPosition := MIDDLE,
         rallyHits := 0, tasks := WithoutGame(h.tasks) + [Starting])
    else Broadcast(h, GameOver, arrives)
  }

  function OnRequest(h: Host, q: Request, reached: bool, arrives: bool): (r: Host) {
    match q
    case Pong(pong, direction) => OnPong(h, pong, direction, reached, arrives)
    case Rematch(again) => OnRematch(h, again, arrives)
    case Disconnect => h.(connected := false, tasks := WithoutGame(h.tasks))
  }

  // ---- The lanes that do not repeat the last one

  const LANES := [LEFT, MIDDLE, RIGHT]

  function Other(lanes: seq<Direction>, last: Option<Direction>): (r: seq<Direction>) {
    if lanes == [] then []
    else
      var k := |lanes| - 1;
      Other(lanes[..k], last) + if last != Some(lanes[k]) then [lanes[k]] else []
  }

  function Lanes(last: Option<Direction>): (r: seq<Direction>) { Other(LANES, last) }

  lemma {:induction false} OtherExact(lanes: seq<Direction>, last: Option<Direction>, d: Direction)
    ensures d in Other(lanes, last) <==> d in lanes && last != Some(d)
    decreases |lanes|
  {
    if lanes != [] {
      var k := |lanes| - 1;
      OtherExact(lanes[..k], last, d);
      assert lanes == lanes[..k] + [lanes[k]];
    }
  }

  /** A player may choose every lane but the last one, and has a choice. */
  lemma LanesExact(last: Option<Direction>)
    ensures forall d :: d in Lanes(last) <==> last != Some(d)
    ensures Lanes(last) != []
  {
    assert LANES[0] == LEFT && LANES[1] == MIDDLE && LANES[2] == RIGHT;
    forall d: Direction ensures d in Lanes(last) <==> last != Some(d) {
      OtherExact(LANES, last, d);
      assert d == LEFT || d == MIDDLE || d == RIGHT;
    }
    assert (if last == Some(LEFT) then RIGHT else LEFT) in Lanes(last);
  }

  /** The loop both players pick from. */
  method OpenLanes(last: Option<Direction>) returns (lanes: seq<Direction>)
    ensures lanes == Lanes(last)
  {
    lanes := [];
    for i := 0 to |LANES|
      invariant lanes == Other(LANES[..i], last)
    {
      assert LANES[..i + 1][..i] == LANES[..i];
      if last != Some(LANES[i]) {
        lanes := lanes + [LANES[i]];
      }
    }
    assert LANES[..|LANES|] == LANES;
  }

  class PingPongMatch {
    var connected: bool
    var clientScore: nat
    var serverScore: nat
    var currentDirection: Option<Direction>
    var lastServerDirection: Option<Direction>
    var serverPosition: Direction
    var rallyHits: nat
    var roundNumber: nat
    var tasks: seq<Task>
    var sent: seq<Announcement>

    function View(): (h: Host)
      reads this
    {
      Host(connected, clientScore, serverScore, currentDirection, lastServerDirection, serverPosition, rallyHits,
           roundNumber, tasks, sent)
    }

    method BroadcastMessage(a: Announcement, arrives: bool)
      modifies this`connected, this`sent
      ensures View() == Broadcast(old(View()), a, arrives)
    {
      if !connected {
        return;
      }
      if arrives {
        sent := sent + [a];
      } else {
        connected := false;
      }
    }

    /** Nobody may play the same direction twice in a row. */
    method Play(shot: Shot, arrives: bool) returns (d: Direction)
      modifies this`connected, this`sent, this`currentDirection, this`lastServerDirection
      ensures old(lastServerDirection) != Some(d)
      ensures View() == PlayBall(old(View()), shot, d, arrives)
    {
      var possible := OpenLanes(lastServerDirection);
      LanesExact(lastServerDirection);
      var choice: nat :| choice < |possible|;
      d := possible[choice];
      currentDirection := Some(d);
      lastServerDirection := currentDirection;
      BroadcastMessage(Ping(shot, roundNumber, rallyHits, d), arrives);
    }

    method ServeBall(arrives: bool) returns (d: Direction)
      modifies this
      ensures old(lastServerDirection) != Some(d)
      ensures View() == Serve(old(View()), d, arrives)
    {
      roundNumber := roundNumber + 1;
      rallyHits := 0;
      serverPosition := MIDDLE;
      d := Play(SERVE, arrives);
    }

    method GoOn(i: nat, arrives: bool) returns (d: Direction)
      requires i < |tasks|
      modifies this
      ensures old(lastServerDirection) != Some(d)
      ensures View() == Resume(old(View()).(tasks := old(tasks)[..i] + old(tasks)[i + 1..]), old(tasks)[i], d, arrives)
    {
      var t := tasks[i];
      tasks := tasks[..i] + tasks[i + 1..];
      d := if lastServerDirection == Some(LEFT) then RIGHT else LEFT;
      match t
      case Starting =>
        BroadcastMessage(GameStart, arrives);
        tasks := tasks + [Announced];
      case Announced => d := ServeBall(arrives);
      case NextServe =>
        if connected {
          d := ServeBall(arrives);
        }
      case RallyReturn =>
        if connected {
          d := Play(RALLY, arrives);
        }
      case Scored => tasks := tasks + [NextServe];
    }

    method HandleSend(pong: bool, direction: Option<Direction>, reached: bool, arrives: bool)
      modifies this
      ensures View() == OnPong(old(View()), pong, direction, reached, arrives)
    {
      var side;
      if pong && direction.Some? {
        serverPosition := direction.value;
        if reached {
          rallyHits := rallyHits + 1;
          tasks := tasks + [RallyReturn];
          return;
        }
        clientScore := clientScore + 1;
        side := CLIENT;
      } else {
        serverScore := serverScore + 1;
        side := SERVER;
      }
      AnnouncePoint(side, arrives);
    }

    method AnnouncePoint(side: Side, arrives: bool)
      modifies this
      ensures View() == Point(old(View()), side, arrives)
    {
      if clientScore >= TARGET || serverScore >= TARGET {
        var winner := if clientScore >= TARGET then CLIENT else SERVER;
        BroadcastMessage(MatchFinish(winner, roundNumber, side, rallyHits, clientScore, serverScore), arrives);
      } else {
        BroadcastMessage(Score(roundNumber, side, rallyHits, clientScore, serverScore), arrives);
        tasks := tasks + [Scored];
      }
    }

    method HandleRematch(again: bool, arrives: bool)
      modifies this
      ensures View() == OnRematch(old(View()), again, arrives)
    {
      if again {
        clientScore, serverScore, roundNumber := 0, 0, 0;
        lastServerDirection, serverPosition, rallyHits := None, MIDDLE, 0;
        tasks := WithoutGame(tasks) + [Starting];
      } else {
        BroadcastMessage(GameOver, arrives);
      }
    }

    method HandleDisconnect()
      modifies this
      ensures View() == OnRequest(old(View()), Disconnect, false, false)
    {
      connected := false;
      tasks := WithoutGame(tasks);
    }
  }

  // ---- The match as a whole

  datatype Note = Aimed(target: Direction) | ScoreRead

  // read: how many announcements the client has handled; toServer: requests on their
  // way; log: where the client aimed and which scores it read; prompts: rematch
  // questions open; over: the client has stopped.
  datatype World = World(host: Host, read: nat, toServer: seq<Request>, position: Direction,
                         lastReturn: Option<Direction>,
                         log: seq<Note>, prompts: nat, over: bool, linkUp: bool)

  datatype Move =
    | Resumes(i: nat, d: Direction, arrives: bool)
    | ServerReads(reached: bool, arrives: bool)
    | ClientReads(reached: bool, pick: nat)
    | Answers(again: bool)
    | Leaves
    | LinkDrops

  function SendTo(w: World, q: Request): (r: World) {
    if w.linkUp then w.(toServer := w.toServer + [q]) else w
  }

  function ClientHandles(w: World, a: Announcement, reached: bool, target: Direction): (r: World) {
    match a
    case GameStart => w
    case Ping(_, _, _, d) =>
      if !reached then SendTo(w.(position := d), Pong(false, None))
      else
        SendTo(w.(position := d, lastReturn := Some(target), log := w.log + [Aimed(target)]),
               Pong(true, Some(target)))
    case Score(_, _, _, _, _) => w.(position := MIDDLE, lastReturn := None, log := w.log + [ScoreRead])
    case MatchFinish(_, _, _, _, _, _) => w.(prompts := w.prompts + 1)
    case GameOver => w.(over := true)
  }

  /** One move; a move that is not possible changes nothing. The server reads one
      request at a time, so not while a score broadcast is in progress. */
  function Step(w: World, m: Move): (r: World) {
    match m
    case Resumes(i, d, arrives) =>
      if i < |w.host.tasks| && w.host.lastServerDirection != Some(d) && (arrives ==> w.linkUp) then
        w.(host := Resume(w.host.(tasks := w.host.tasks[..i] + w.host.tasks[i + 1..]), w.host.tasks[i], d, arrives))
      else w
    case ServerReads(reached, arrives) =>
      if w.toServer != [] && Scored !in w.host.tasks && (arrives ==> w.linkUp) then
        w.(toServer := w.toServer[1..], host := OnRequest(w.host, w.toServer[0], reached, arrives))
      else w
    case ClientReads(reached, pick) =>
      if w.read < |w.host.sent| && pick < |Lanes(w.lastReturn)| then
        ClientHandles(w.(read := w.read + 1), w.host.sent[w.read], reached, Lanes(w.lastReturn)[pick])
      else w
    case Answers(again) => if w.prompts > 0 then SendTo(w.(prompts := w.prompts - 1), Rematch(again)) else w
    case Leaves => SendTo(w, Disconnect)
    case LinkDrops => w.(linkUp := false, toServer := [], host := w.host.(tasks := WithoutGame(w.host.tasks)))
  }

  function PlayOut(w: World, moves: seq<Move>): (r: World) {
    if moves == [] then w else Step(PlayOut(w, moves[..|moves| - 1]), moves[|moves| - 1])
  }

  /** The player is connected and has just subscribed to the game's topic. */
  const START :=
    World(Host(true, 0, 0, None, None, MIDDLE, 0, 0, [Starting], []), 0, [], MIDDLE, None, [], 0, false, true)

  // ---- The referee: what a spectator of the topic may see

  datatype Phase =
    | Quiet
    | Ready(c: nat, s: nat, last: Option<Direction>)
    | Ball(c: nat, s: nat, hits: nat, from: Direction)

  predicate Wins(c: nat, s: nat) { c == TARGET || s == TARGET }

  /** A match is GAME_START, then rounds: a serve, returns each one hit later, and a
      point that ends the round with its number, the scores and who made it. No ball
      goes where the one before it went, and the point that reaches 11 ends the match. */
  function Watch(p: Phase, a: Announcement): (r: Option<Phase>) {
    match a
    case GameStart => if p.Quiet? then Some(Ready(0, 0, None)) else None
    case Ping(SERVE, round, hits, d) =>
      if p.Ready? && round == p.c + p.s + 1 && hits == 0 && p.last != Some(d) then Some(Ball(p.c, p.s, 0, d)) else None
    case Ping(RALLY, round, hits, d) =>
      if p.Ball? && round == p.c + p.s + 1 && hits == p.hits + 1 && p.from != d
      then Some(Ball(p.c, p.s, hits, d)) else None
    case Score(round, point, hits, c, s) =>
      if p.Ball? && round == p.c + p.s + 1 && hits == p.hits && Made(p, point, c, s) && !Wins(c, s)
      then Some(Ready(c, s, Some(p.from))) else None
    case MatchFinish(winner, round, point, hits, c, s) =>
      if p.Ball? && round == p.c + p.s + 1 && hits == p.hits && Made(p, point, c, s) && Wins(c, s)
         && winner == point then Some(Quiet) else None
    case GameOver => if p.Quiet? then Some(Quiet) else None
  }

  predicate Made(p: Phase, point: Side, c: nat, s: nat)
    requires p.Ball?
  {
    if point == CLIENT then c == p.c + 1 && s == p.s else c == p.c && s == p.s + 1
  }

  function Referee(seen: seq<Announcement>): (r: Option<Phase>) {
    if seen == [] then Some(Quiet)
    else
      var p := Referee(seen[..|seen| - 1]);
      if p.None? then None else Watch(p.value, seen[|seen| - 1])
  }

  lemma RefereeNext(seen: seq<Announcement>, a: Announcement)
    ensures Referee(seen + [a]) == var p := Referee(seen); if p.None? then None else Watch(p.value, a)
  {
    assert (seen + [a])[..|seen|] == seen;
  }

  // ---- Where the one token of the match is

  function Count<T>(q: seq<T>, p: T -> bool): (n: nat) {
    if q == [] then 0 else (if p(q[0]) then 1 else 0) + Count(q[1..], p)
  }

  lemma {:induction false} CountSnoc<T>(q: seq<T>, x: T, p: T -> bool)
    ensures Count(q + [x], p) == Count(q, p) + if p(x) then 1 else 0
  {
    if q == [] {
      assert q + [x] == [x] && [x][1..] == [];
    } else {
      assert (q + [x])[1..] == q[1..] + [x];
      CountSnoc(q[1..], x, p);
    }
  }

  predicate IsBall(a: Announcement) { a.Ping? }
  predicate IsEnd(a: Announcement) { a.MatchFinish? || a.GameOver? }
  predicate IsReturn(q: Request) { q.Pong? }
  predicate IsChoice(q: Request) { q.Rematch? }

  function Unread(w: World): (news: seq<Announcement>) {
    if w.read <= |w.host.sent| then w.host.sent[w.read..] else []
  }

  /** Balls in flight towards either side. */
  function Flying(w: World): (n: nat) { Count(Unread(w), IsBall) + Count(w.toServer, IsReturn) }

  /** The match is over: its result or the goodbye on its way, the rematch question
      open, or its answer on its way. */
  function Ended(w: World): (n: nat) {
    Count(Unread(w), IsEnd) + Count(w.toServer, IsChoice) + w.prompts + if w.over then 1 else 0
  }

  function Tokens(w: World): (n: nat) { |w.host.tasks| + Flying(w) + Ended(w) }

  predicate Playing(h: Host) { h.clientScore < TARGET && h.serverScore < TARGET }

  predicate InRally(h: Host, hits: int) {
    && Playing(h) && h.roundNumber == h.clientScore + h.serverScore + 1 && h.lastServerDirection.Some? && hits >= 0
    && h.currentDirection == h.lastServerDirection
    && (h.connected ==>
          Referee(h.sent) == Some(Ball(h.clientScore, h.serverScore, hits, h.lastServerDirection.value)))
  }

  predicate BetweenRounds(h: Host) {
    && Playing(h) && h.roundNumber == h.clientScore + h.serverScore
    && (h.connected ==> Referee(h.sent) == Some(Ready(h.clientScore, h.serverScore, h.lastServerDirection)))
  }

  predicate AtStart(h: Host) {
    h.clientScore == h.serverScore == h.roundNumber == 0 && h.lastServerDirection == None
  }

  predicate TaskFits(h: Host, t: Task) {
    match t
    case Starting => AtStart(h) && (h.connected ==> Referee(h.sent) == Some(Quiet))
    case Announced => AtStart(h) && BetweenRounds(h)
    case Scored => BetweenRounds(h)
    case NextServe => BetweenRounds(h)
    case RallyReturn => InRally(h, h.rallyHits - 1)
  }

  predicate EndFits(h: Host) {
    && (h.clientScore == TARGET) != (h.serverScore == TARGET) && h.clientScore <= TARGET && h.serverScore <= TARGET
    && h.roundNumber == h.clientScore + h.serverScore && (h.connected ==> Referee(h.sent) == Some(Quiet))
  }

  /** After the connection is lost nothing may be left to go on. */
  predicate Stopped(h: Host) {
    || (Playing(h) && h.clientScore + h.serverScore <= h.roundNumber <= h.clientScore + h.serverScore + 1)
    || ((h.clientScore == TARGET) != (h.serverScore == TARGET) && h.clientScore <= TARGET && h.serverScore <= TARGET
        && h.roundNumber == h.clientScore + h.serverScore)
  }

  predicate Inv(w: World) {
    && w.read <= |w.host.sent| && Referee(w.host.sent).Some?
    && Tokens(w) <= 1 && (w.host.connected && w.linkUp ==> Tokens(w) == 1)
    && (w.host.tasks != [] ==> TaskFits(w.host, w.host.tasks[0]))
    && (Flying(w) > 0 ==> InRally(w.host, w.host.rallyHits))
    && (Ended(w) > 0 ==> EndFits(w.host))
    && (Tokens(w) == 0 ==> Stopped(w.host))
  }

  // ---- Every move keeps it

  // What a broadcast adds to the tokens the client has still to read.
  lemma BroadcastUnread(w: World, h: Host, a: Announcement, arrives: bool)
    requires w.read <= |w.host.sent| && h.sent == w.host.sent
    ensures var r := w.(host := Broadcast(h, a, arrives));
      && r.read <= |r.host.sent|
      && Count(Unread(r), IsBall) == Count(Unread(w), IsBall) + (if h.connected && arrives && IsBall(a) then 1 else 0)
      && Count(Unread(r), IsEnd) == Count(Unread(w), IsEnd) + (if h.connected && arrives && IsEnd(a) then 1 else 0)
    ensures Referee(h.sent + [a]) == var p := Referee(h.sent); if p.None? then None else Watch(p.value, a)
  {
    RefereeNext(h.sent, a);
    assert (h.sent + [a])[w.read..] == Unread(w) + [a];
    CountSnoc(Unread(w), a, IsBall);
    CountSnoc(Unread(w), a, IsEnd);
  }

  lemma StartingKeeps(w: World, d: Direction, arrives: bool)
    requires Inv(w) && w.host.tasks == [Starting] && (arrives ==> w.linkUp)
    ensures Inv(w.(host := Resume(w.host.(tasks := []), Starting, d, arrives)))
  {
    var h := w.host.(tasks := []);
    BroadcastUnread(w, h, GameStart, arrives);
  }

  /** A world whose only token is a ball in flight, or none once disconnected. */
  lemma FlyingFits(r: World)
    requires r.read <= |r.host.sent| && Referee(r.host.sent).Some? && r.host.tasks == []
    requires Ended(r) == 0 && Flying(r) <= 1 && (r.host.connected && r.linkUp ==> Flying(r) == 1)
    requires InRally(r.host, r.host.rallyHits)
    ensures Inv(r)
  {
  }

  lemma ServeFits(h: Host, d: Direction, arrives: bool)
    requires BetweenRounds(h) && h.lastServerDirection != Some(d) && Referee(h.sent).Some?
    ensures InRally(Serve(h, d, arrives), Serve(h, d, arrives).rallyHits)
    ensures Serve(h, d, arrives).tasks == h.tasks && Referee(Serve(h, d, arrives).sent).Some?
  {
    RefereeNext(h.sent, Ping(SERVE, h.roundNumber + 1, 0, d));
  }

  lemma RallyFits(h: Host, d: Direction, arrives: bool)
    requires InRally(h, h.rallyHits - 1) && h.lastServerDirection != Some(d) && Referee(h.sent).Some?
    ensures InRally(PlayBall(h, RALLY, d, arrives), PlayBall(h, RALLY, d, arrives).rallyHits)
    ensures PlayBall(h, RALLY, d, arrives).tasks == h.tasks && Referee(PlayBall(h, RALLY, d, arrives).sent).Some?
  {
    RefereeNext(h.sent, Ping(RALLY, h.roundNumber, h.rallyHits, d));
  }

  lemma PlayCounts(w: World, h: Host, shot: Shot, d: Direction, arrives: bool)
    requires w.read <= |w.host.sent| && h.sent == w.host.sent && Flying(w) == Ended(w) == 0
    ensures var r := w.(host := PlayBall(h, shot, d, arrives));
      && r.read <= |r.host.sent| && Ended(r) == 0 && r.host.connected == (h.connected && arrives)
      && Flying(r) == if h.connected && arrives then 1 else 0
  {
    BroadcastUnread(w, h.(currentDirection := Some(d), lastServerDirection := Some(d)),
                    Ping(shot, h.roundNumber, h.rallyHits, d), arrives);
  }

  lemma ServeKeeps(w: World, h: Host, d: Direction, arrives: bool)
    requires w.read <= |w.host.sent| && h.sent == w.host.sent && Flying(w) == Ended(w) == 0 && h.tasks == []
    requires BetweenRounds(h) && h.lastServerDirection != Some(d) && Referee(h.sent).Some?
    ensures Inv(w.(host := Serve(h, d, arrives)))
  {
    ServeFits(h, d, arrives);
    PlayCounts(w, h.(roundNumber := h.roundNumber + 1, rallyHits := 0, serverPosition := MIDDLE), SERVE, d, arrives);
    FlyingFits(w.(host := Serve(h, d, arrives)));
  }

  lemma RallyKeeps(w: World, h: Host, d: Direction, arrives: bool)
    requires w.read <= |w.host.sent| && h.sent == w.host.sent && Flying(w) == Ended(w) == 0 && h.tasks == []
    requires InRally(h, h.rallyHits - 1) && h.lastServerDirection != Some(d) && Referee(h.sent).Some?
    ensures Inv(w.(host := PlayBall(h, RALLY, d, arrives)))
  {
    RallyFits(h, d, arrives);
    PlayCounts(w, h, RALLY, d, arrives);
    FlyingFits(w.(host := PlayBall(h, RALLY, d, arrives)));
  }

  /** A delay that finds the connection gone ends without a ball. */
  lemma GoneKeeps(w: World)
    requires Inv(w) && |w.host.tasks| == 1 && !w.host.connected && !w.host.tasks[0].Starting?
    ensures Inv(w.(host := w.host.(tasks := [])))
  {
  }

  lemma TaskKeeps(w: World, t: Task, d: Direction, arrives: bool)
    requires Inv(w) && w.host.tasks == [t] && (arrives ==> w.linkUp) && w.host.lastServerDirection != Some(d)
    ensures Inv(w.(host := Resume(w.host.(tasks := []), t, d, arrives)))
  {
    var h, n := w.host.(tasks := []), Resume(w.host.(tasks := []), t, d, arrives);
    match t
    case Starting => StartingKeeps(w, d, arrives);
    case Scored =>
    case Announced =>
      assert n == Serve(h, d, arrives);
      ServeKeeps(w, h, d, arrives);
    case NextServe =>
      assert n == if h.connected then Serve(h, d, arrives) else h;
      if h.connected { ServeKeeps(w, h, d, arrives); } else { GoneKeeps(w); }
    case RallyReturn =>
      assert n == if h.connected then PlayBall(h, RALLY, d, arrives) else h;
      if h.connected { RallyKeeps(w, h, d, arrives); } else { GoneKeeps(w); }
  }

  lemma ResumesKeeps(w: World, i: nat, d: Direction, arrives: bool)
    requires Inv(w)
    ensures Inv(Step(w, Resumes(i, d, arrives)))
  {
    if i < |w.host.tasks| && w.host.lastServerDirection != Some(d) && (arrives ==> w.linkUp) {
      assert i == 0 && w.host.tasks == [w.host.tasks[0]];
      assert w.host.tasks[..0] + w.host.tasks[1..] == [];
      TaskKeeps(w, w.host.tasks[0], d, arrives);
    }
  }

  /** Who makes the point, and the score and phase before it. */
  predicate Scoring(h: Host, side: Side, c: nat, s: nat) {
    && c < TARGET && s < TARGET && h.roundNumber == c + s + 1 && h.lastServerDirection.Some?
    && h.clientScore == (if side == CLIENT then c + 1 else c) && h.serverScore == (if side == CLIENT then s else s + 1)
    && (h.connected ==> Referee(h.sent) == Some(Ball(c, s, h.rallyHits, h.lastServerDirection.value)))
  }

  // The world in which the request is taken and nothing is put in its place yet.
  predicate Taken(w: World, h: Host) {
    && w.read <= |w.host.sent| && Referee(w.host.sent).Some?
    && Tokens(w) == 0 && h.sent == w.host.sent && h.tasks == w.host.tasks
    && (w.linkUp ==> h.connected == w.host.connected)
  }

  lemma FinishFits(h: Host, side: Side, c: nat, s: nat, arrives: bool)
    requires Referee(h.sent).Some? && Scoring(h, side, c, s) && !Playing(h)
    ensures var r := Point(h, side, arrives); EndFits(r) && Stopped(r) && Referee(r.sent).Some?
  {
    var winner := if h.clientScore >= TARGET then CLIENT else SERVER;
    RefereeNext(h.sent, MatchFinish(winner, h.roundNumber, side, h.rallyHits, h.clientScore, h.serverScore));
  }

  lemma FinishKeeps(w: World, h: Host, side: Side, c: nat, s: nat, arrives: bool)
    requires Taken(w, h) && (arrives ==> w.linkUp) && Scoring(h, side, c, s) && !Playing(h)
    ensures Inv(w.(host := Point(h, side, arrives)))
  {
    var winner := if h.clientScore >= TARGET then CLIENT else SERVER;
    var a := MatchFinish(winner, h.roundNumber, side, h.rallyHits, h.clientScore, h.serverScore);
    BroadcastUnread(w, h, a, arrives);
    assert Point(h, side, arrives) == Broadcast(h, a, arrives);
    FinishFits(h, side, c, s, arrives);
  }

  lemma PointKeeps(w: World, h: Host, side: Side, c: nat, s: nat, arrives: bool)
    requires Taken(w, h) && (arrives ==> w.linkUp) && Scoring(h, side, c, s)
    ensures Inv(w.(host := Point(h, side, arrives)))
  {
    if Playing(h) {
      BroadcastUnread(w, h, Score(h.roundNumber, side, h.rallyHits, h.clientScore, h.serverScore), arrives);
    } else {
      FinishKeeps(w, h, side, c, s, arrives);
    }
  }

  lemma ReturnKeeps(w: World, to: Direction)
    requires Taken(w, w.host) && InRally(w.host, w.host.rallyHits)
    ensures Inv(w.(host := w.host.(serverPosition := to, rallyHits := w.host.rallyHits + 1,
                                   tasks := w.host.tasks + [RallyReturn])))
  {
    assert w.host.tasks + [RallyReturn] == [RallyReturn];
  }

  lemma ScoringAfter(h: Host, moved: Host, side: Side)
    requires InRally(h, h.rallyHits)
    requires moved == if side == CLIENT
                      then h.(clientScore := h.clientScore + 1, serverPosition := moved.serverPosition)
                      else h.(serverScore := h.serverScore + 1)
    ensures Scoring(moved, side, h.clientScore, h.serverScore)
  {
  }

  lemma HitKeeps(w: World, to: Direction, arrives: bool)
    requires Taken(w, w.host) && (arrives ==> w.linkUp) && InRally(w.host, w.host.rallyHits)
    ensures var moved := w.host.(serverPosition := to, clientScore := w.host.clientScore + 1);
      Inv(w.(host := Point(moved, CLIENT, arrives)))
  {
    var moved := w.host.(serverPosition := to, clientScore := w.host.clientScore + 1);
    ScoringAfter(w.host, moved, CLIENT);
    PointKeeps(w, moved, CLIENT, w.host.clientScore, w.host.serverScore, arrives);
  }

  lemma MissKeeps(w: World, arrives: bool)
    requires Taken(w, w.host) && (arrives ==> w.linkUp) && InRally(w.host, w.host.rallyHits)
    ensures Inv(w.(host := Point(w.host.(serverScore := w.host.serverScore + 1), SERVER, arrives)))
  {
    var moved := w.host.(serverScore := w.host.serverScore + 1);
    ScoringAfter(w.host, moved, SERVER);
    PointKeeps(w, moved, SERVER, w.host.clientScore, w.host.serverScore, arrives);
  }

  lemma PongKeeps(w: World, pong: bool, direction: Option<Direction>, reached: bool, arrives: bool)
    requires Taken(w, w.host) && (arrives ==> w.linkUp) && InRally(w.host, w.host.rallyHits)
    ensures Inv(w.(host := OnPong(w.host, pong, direction, reached, arrives)))
  {
    var h, n := w.host, OnPong(w.host, pong, direction, reached, arrives);
    if !(pong && direction.Some?) {
      assert n == Point(h.(serverScore := h.serverScore + 1), SERVER, arrives);
      MissKeeps(w, arrives);
    } else if reached {
      assert n == h.(serverPosition := direction.value, rallyHits := h.rallyHits + 1, tasks := h.tasks + [RallyReturn]);
      ReturnKeeps(w, direction.value);
    } else {
      assert n == Point(h.(serverPosition := direction.value, clientScore := h.clientScore + 1), CLIENT, arrives);
      HitKeeps(w, direction.value, arrives);
    }
  }

  lemma RematchKeeps(w: World, again: bool, arrives: bool)
    requires Taken(w, w.host) && (arrives ==> w.linkUp) && EndFits(w.host)
    ensures Inv(w.(host := OnRematch(w.host, again, arrives)))
  {
    if again {
      assert WithoutGame(w.host.tasks) + [Starting] == [Starting];
    } else {
      BroadcastUnread(w, w.host, GameOver, arrives);
    }
  }

  lemma WithoutGameOne(tasks: seq<Task>)
    requires |tasks| <= 1
    ensures WithoutGame(tasks) == if tasks == [] || tasks[0].Starting? || tasks[0].Announced? then [] else tasks
  {
    if tasks != [] {
      assert tasks[1..] == [];
    }
  }

  /** A connection given up: the game task is cancelled, all else stays where it is. */
  lemma CancelKeeps(w: World, connected: bool, linkUp: bool, toServer: seq<Request>)
    requires Inv(w) && !(connected && linkUp) && (connected ==> w.host.connected)
    requires Count(toServer, IsReturn) <= Count(w.toServer, IsReturn)
    requires Count(toServer, IsChoice) <= Count(w.toServer, IsChoice)
    ensures Inv(w.(linkUp := linkUp, toServer := toServer,
                   host := w.host.(connected := connected, tasks := WithoutGame(w.host.tasks))))
  {
    WithoutGameOne(w.host.tasks);
  }

  lemma ServerReadsKeeps(w: World, reached: bool, arrives: bool)
    requires Inv(w)
    ensures Inv(Step(w, ServerReads(reached, arrives)))
  {
    if w.toServer != [] && Scored !in w.host.tasks && (arrives ==> w.linkUp) {
      var taken := w.(toServer := w.toServer[1..]);
      match w.toServer[0]
      case Pong(pong, direction) => PongKeeps(taken, pong, direction, reached, arrives);
      case Rematch(again) => RematchKeeps(taken, again, arrives);
      case Disconnect => CancelKeeps(w, false, w.linkUp, w.toServer[1..]);
    }
  }

  lemma SendKeepsCounts(w: World, q: Request)
    ensures Flying(SendTo(w, q)) == Flying(w) + if w.linkUp && IsReturn(q) then 1 else 0
    ensures Ended(SendTo(w, q)) == Ended(w) + if w.linkUp && IsChoice(q) then 1 else 0
  {
    CountSnoc(w.toServer, q, IsReturn);
    CountSnoc(w.toServer, q, IsChoice);
  }

  lemma ReadCounts(w: World)
    requires w.read < |w.host.sent|
    ensures var r := w.(read := w.read + 1); var a := w.host.sent[w.read];
      && Flying(w) == Flying(r) + (if IsBall(a) then 1 else 0)
      && Ended(w) == Ended(r) + (if IsEnd(a) then 1 else 0)
  {
    assert Unread(w)[1..] == Unread(w.(read := w.read + 1));
  }

  /** The client's side of a move leaves the host alone and moves the token along. */
  lemma SameHostKeeps(w: World, r: World)
    requires Inv(w) && r.host == w.host && r.linkUp == w.linkUp && r.read <= |r.host.sent|
    requires Flying(r) <= Flying(w) && Ended(r) <= Ended(w)
    requires w.linkUp ==> Flying(r) == Flying(w) && Ended(r) == Ended(w)
    ensures Inv(r)
  {
  }

  lemma ClientReadsKeeps(w: World, reached: bool, pick: nat)
    requires Inv(w)
    ensures Inv(Step(w, ClientReads(reached, pick)))
  {
    if w.read < |w.host.sent| && pick < |Lanes(w.lastReturn)| {
      var target := Lanes(w.lastReturn)[pick];
      ReadCounts(w);
      var r := w.(read := w.read + 1);
      var a := w.host.sent[w.read];
      ReadMovesToken(w, r, a, reached, target);
      SameHostKeeps(w, ClientHandles(r, a, reached, target));
    }
  }

  lemma ReadMovesToken(w: World, r: World, a: Announcement, reached: bool, target: Direction)
    requires w.read < |w.host.sent| && r == w.(read := w.read + 1) && a == w.host.sent[w.read]
    requires Flying(w) == Flying(r) + (if IsBall(a) then 1 else 0)
    requires Ended(w) == Ended(r) + (if IsEnd(a) then 1 else 0) && Ended(w) <= 1
    ensures var n := ClientHandles(r, a, reached, target);
      && n.host == w.host && n.linkUp == w.linkUp && n.read == w.read + 1
      && Flying(n) <= Flying(w) && Ended(n) <= Ended(w)
      && (w.linkUp ==> Flying(n) == Flying(w) && Ended(n) == Ended(w))
  {
    if a.Ping? {
      var aimed := r.(position := a.direction, lastReturn := Some(target), log := r.log + [Aimed(target)]);
      SendKeepsCounts(aimed, Pong(true, Some(target)));
      SendKeepsCounts(r.(position := a.direction), Pong(false, None));
    }
  }

  lemma AnswersKeeps(w: World, again: bool)
    requires Inv(w)
    ensures Inv(Step(w, Answers(again)))
  {
    if w.prompts > 0 {
      SendKeepsCounts(w.(prompts := w.prompts - 1), Rematch(again));
    }
  }

  lemma StepKeeps(w: World, m: Move)
    requires Inv(w)
    ensures Inv(Step(w, m))
  {
    match m
    case Resumes(i, d, arrives) => ResumesKeeps(w, i, d, arrives);
    case ServerReads(reached, arrives) => ServerReadsKeeps(w, reached, arrives);
    case ClientReads(reached, pick) => ClientReadsKeeps(w, reached, pick);
    case Answers(again) => AnswersKeeps(w, again);
    case Leaves => SendKeepsCounts(w, Disconnect);
    case LinkDrops => CancelKeeps(w, w.host.connected, false, []);
  }

  lemma {:induction false} RunKeeps(moves: seq<Move>)
    ensures Inv(PlayOut(START, moves))
    decreases |moves|
  {
    if moves != [] {
      RunKeeps(moves[..|moves| - 1]);
      StepKeeps(PlayOut(START, moves[..|moves| - 1]), moves[|moves| - 1]);
    }
  }

  // ---- Main results, over every run

  function Returning(tasks: seq<Task>): (n: nat) { if RallyReturn in tasks then 1 else 0 }

  /** While the two are connected the match has exactly one token, and never two. */
  lemma OneToken(moves: seq<Move>)
    ensures var w := PlayOut(START, moves); Tokens(w) <= 1 && (w.host.connected && w.linkUp ==> Tokens(w) == 1)
  {
    RunKeeps(moves);
  }

  lemma RoundFits(w: World)
    requires Inv(w)
    ensures var h := w.host;
      && (Tokens(w) == 1 ==> h.roundNumber == h.clientScore + h.serverScore + Flying(w) + Returning(h.tasks))
      && h.clientScore + h.serverScore <= h.roundNumber <= 2 * TARGET - 1
  {
    if w.host.tasks != [] {
      assert w.host.tasks == [w.host.tasks[0]];
    }
  }

  /** The round number is one ahead of the scores exactly while a ball is played. */
  lemma RoundIsScore(moves: seq<Move>)
    ensures var w := PlayOut(START, moves); var h := w.host;
      && (Tokens(w) == 1 ==> h.roundNumber == h.clientScore + h.serverScore + Flying(w) + Returning(h.tasks))
      && h.clientScore + h.serverScore <= h.roundNumber <= 2 * TARGET - 1
  {
    RunKeeps(moves);
    RoundFits(PlayOut(START, moves));
  }

  /** A match is over when one side has 11 and the other has not. */
  lemma OverMeansWon(moves: seq<Move>)
    ensures var w := PlayOut(START, moves); var h := w.host;
      && (Ended(w) > 0 ==> (h.clientScore == TARGET) != (h.serverScore == TARGET))
      && (Flying(w) > 0 || h.tasks != [] ==> h.clientScore < TARGET && h.serverScore < TARGET)
      && h.clientScore <= TARGET && h.serverScore <= TARGET
  {
    RunKeeps(moves);
  }

  /** Everything the client is told is a sequence of matches by the rules. */
  lemma PlayedByTheRules(moves: seq<Move>)
    ensures Referee(PlayOut(START, moves).host.sent).Some?
  {
    RunKeeps(moves);
  }

  // ---- The client's aims

  /** The lane the client may not choose now: the one its last note names. */
  function Barred(log: seq<Note>): (d: Option<Direction>) {
    if log == [] || log[|log| - 1].ScoreRead? then None else Some(log[|log| - 1].target)
  }

  predicate LogFits(w: World) {
    && w.lastReturn == Barred(w.log)
    && forall n :: 0 <= n < |w.log| && w.log[n].Aimed? ==> Barred(w.log[..n]) != Some(w.log[n].target)
  }

  lemma NoteFits(w: World, r: World, note: Note)
    requires LogFits(w) && r.log == w.log + [note]
    requires note.Aimed? ==> w.lastReturn != Some(note.target)
    requires r.lastReturn == if note.Aimed? then Some(note.target) else None
    ensures LogFits(r)
  {
    assert r.log[..|w.log|] == w.log;
    assert forall n :: 0 <= n < |w.log| ==> r.log[..n] == w.log[..n];
  }

  lemma OtherMovesKeepLog(w: World, m: Move)
    requires !m.ClientReads?
    ensures Step(w, m).log == w.log && Step(w, m).lastReturn == w.lastReturn
  {
  }

  lemma ClientReadsLog(w: World, reached: bool, pick: nat)
    requires LogFits(w) && w.read < |w.host.sent| && pick < |Lanes(w.lastReturn)|
    ensures LogFits(Step(w, ClientReads(reached, pick)))
  {
    var target := Lanes(w.lastReturn)[pick];
    LanesExact(w.lastReturn);
    assert target in Lanes(w.lastReturn);
    var r := w.(read := w.read + 1);
    assert Step(w, ClientReads(reached, pick)) == ClientHandles(r, w.host.sent[w.read], reached, target);
    ReadLog(w, r, w.host.sent[w.read], reached, target);
  }

  lemma StepLog(w: World, m: Move)
    requires LogFits(w)
    ensures LogFits(Step(w, m))
  {
    if !m.ClientReads? {
      OtherMovesKeepLog(w, m);
    } else if w.read < |w.host.sent| && m.pick < |Lanes(w.lastReturn)| {
      ClientReadsLog(w, m.reached, m.pick);
    }
  }

  lemma ReadLog(w: World, r: World, a: Announcement, reached: bool, target: Direction)
    requires LogFits(w) && r.log == w.log && r.lastReturn == w.lastReturn != Some(target)
    ensures LogFits(ClientHandles(r, a, reached, target))
  {
    var n := ClientHandles(r, a, reached, target);
    if a.Ping? && reached {
      NoteFits(w, n, Aimed(target));
    } else if a.Score? {
      NoteFits(w, n, ScoreRead);
    }
  }

  lemma {:induction false} RunLog(moves: seq<Move>)
    ensures LogFits(PlayOut(START, moves))
    decreases |moves|
  {
    if moves != [] {
      RunLog(moves[..|moves| - 1]);
      StepLog(PlayOut(START, moves[..|moves| - 1]), moves[|moves| - 1]);
    }
  }

  /** Over every run, two consecutive aims at the same lane have a SCORE, read by the
      client, between them. */
  lemma ReturnsAlternate(moves: seq<Move>, i: nat, j: nat)
    requires i < j < |PlayOut(START, moves).log|
    requires var log := PlayOut(START, moves).log;
      log[i].Aimed? && log[j] == log[i] && forall k :: i < k < j ==> !log[k].Aimed?
    ensures exists k :: i < k < j && PlayOut(START, moves).log[k] == ScoreRead
  {
    var log := PlayOut(START, moves).log;
    RunLog(moves);
    assert log[..j][|log[..j]| - 1] == log[j - 1];
    assert log[j - 1] == ScoreRead;
  }

  /** The client's latest aim of the run. */
  function LastAim(log: seq<Note>): (d: Option<Direction>) {
    if log == [] then None
    else if log[|log| - 1].Aimed? then Some(log[|log| - 1].target) else LastAim(log[..|log| - 1])
  }

  /** Whether a SCORE was read since. */
  predicate ScoredSince(log: seq<Note>) {
    exists k :: 0 <= k < |log| && log[k].ScoreRead? && forall n :: k < n < |log| ==> !log[n].Aimed?
  }

  lemma ScoredSinceLast(log: seq<Note>)
    requires log != []
    ensures ScoredSince(log) <==> log[|log| - 1].ScoreRead?
  {
    assert log[|log| - 1].ScoreRead? || log[|log| - 1].Aimed?;
  }

  ghost predicate CanAim(w: World, d: Direction) {
    exists pick: nat :: Step(w, ClientReads(true, pick)).log == w.log + [Aimed(d)]
  }

  /** In every state of every run in which the client is about to answer a ball, it can
      aim where it aimed last exactly when it has read a SCORE since; the other lanes
      are always open. */
  lemma AimsAgainAfterScore(moves: seq<Move>, d: Direction)
    requires var w := PlayOut(START, moves); w.read < |w.host.sent| && w.host.sent[w.read].Ping?
    ensures var w := PlayOut(START, moves);
      CanAim(w, d) <==> LastAim(w.log) != Some(d) || ScoredSince(w.log)
  {
    var w := PlayOut(START, moves);
    RunLog(moves);
    AimsOpen(w, d);
    if w.log != [] {
      ScoredSinceLast(w.log);
    }
  }

  lemma AimsOpen(w: World, d: Direction)
    requires w.read < |w.host.sent| && w.host.sent[w.read].Ping?
    ensures CanAim(w, d) <==> w.lastReturn != Some(d)
  {
    LanesExact(w.lastReturn);
    if w.lastReturn != Some(d) {
      var pick: nat :| pick < |Lanes(w.lastReturn)| && Lanes(w.lastReturn)[pick] == d;
      assert Step(w, ClientReads(true, pick)).log == w.log + [Aimed(d)];
    }
    if CanAim(w, d) {
      var pick: nat :| Step(w, ClientReads(true, pick)).log == w.log + [Aimed(d)];
      assert pick < |Lanes(w.lastReturn)|;
      assert (w.log + [Aimed(d)])[|w.log|] == Aimed(d);
    }
  }

  lemma PlayLast(w: World, moves: seq<Move>, last: Move)
    ensures PlayOut(w, moves + [last]) == Step(PlayOut(w, moves), last)
  {
    var all := moves + [last];
    assert all[..|all| - 1] == moves;
  }

  lemma {:induction false} PlayAppend(w: World, a: seq<Move>, b: seq<Move>)
    ensures PlayOut(w, a + b) == PlayOut(PlayOut(w, a), b)
    decreases |b|
  {
    if b == [] {
      assert a + b == a;
    } else {
      var front, last := b[..|b| - 1], b[|b| - 1];
      PlayAppend(w, a, front);
      assert b == front + [last];
      Regroup(a, front, [last]);
      PlayLast(w, a + front, last);
    }
  }

  lemma PlayFirst(w: World, m: Move, rest: seq<Move>)
    ensures PlayOut(w, [m] + rest) == PlayOut(Step(w, m), rest)
  {
    PlayAppend(w, [m], rest);
    assert [m][..0] == [];
  }

  // The first ball is returned to the left and wins the point; so is the second.
  const FIRST_BALL :=
    [Resumes(0, LEFT, true)] + ([Resumes(0, LEFT, true)] + ([ClientReads(true, 0)] + [ClientReads(true, 0)]))
  const POINT := [ServerReads(false, true)] + ([Resumes(0, MIDDLE, true)] + [Resumes(0, MIDDLE, true)])
  const SECOND_BALL := [ClientReads(true, 0)] + [ClientReads(true, 0)]

  const RALLIED :=
    World(Host(true, 0, 0, Some(LEFT), Some(LEFT), MIDDLE, 0, 1, [], [GameStart, Ping(SERVE, 1, 0, LEFT)]),
          2, [Pong(true, Some(LEFT))], LEFT, Some(LEFT), [Aimed(LEFT)], 0, false, true)

  const SCORED :=
    World(Host(true, 1, 0, Some(MIDDLE), Some(MIDDLE), MIDDLE, 0, 2, [],
               [GameStart, Ping(SERVE, 1, 0, LEFT), Score(1, CLIENT, 0, 1, 0), Ping(SERVE, 2, 0, MIDDLE)]),
          2, [], LEFT, Some(LEFT), [Aimed(LEFT)], 0, false, true)

  lemma FirstLane()
    ensures |Lanes(None)| > 0 && Lanes(None)[0] == LEFT
  {
    assert Other(LANES, None)[0] == LEFT by {
      assert LANES[..2] == [LEFT, MIDDLE] && [LEFT, MIDDLE][..1] == [LEFT] && [LEFT][..0] == [];
      assert Other([LEFT], None) == [LEFT];
    }
  }

  const SERVED :=
    World(Host(true, 0, 0, Some(LEFT), Some(LEFT), MIDDLE, 0, 1, [], [GameStart, Ping(SERVE, 1, 0, LEFT)]),
          0, [], MIDDLE, None, [], 0, false, true)

  lemma FirstServed()
    ensures Step(Step(START, Resumes(0, LEFT, true)), Resumes(0, LEFT, true)) == SERVED
  {
    var w := Step(START, Resumes(0, LEFT, true));
    assert w.host.tasks == [Announced] && w.host.sent == [GameStart];
  }

  lemma FirstReturned()
    ensures Step(Step(SERVED, ClientReads(true, 0)), ClientReads(true, 0)) == RALLIED
  {
    FirstLane();
    var w := Step(SERVED, ClientReads(true, 0));
    assert w == SERVED.(read := 1);
    assert RALLIED.log == [] + [Aimed(LEFT)] && RALLIED.toServer == [] + [Pong(true, Some(LEFT))];
  }

  lemma FirstBall()
    ensures PlayOut(START, FIRST_BALL) == RALLIED
  {
    var m, both := Resumes(0, LEFT, true), [ClientReads(true, 0)] + [ClientReads(true, 0)];
    PlayFirst(START, m, [m] + both);
    PlayFirst(Step(START, m), m, both);
    FirstServed();
    TwoReads(SERVED);
    FirstReturned();
  }

  lemma TwoReads(w: World)
    ensures PlayOut(w, [ClientReads(true, 0)] + [ClientReads(true, 0)])
         == Step(Step(w, ClientReads(true, 0)), ClientReads(true, 0))
  {
    PlayFirst(w, ClientReads(true, 0), [ClientReads(true, 0)]);
    var next := Step(w, ClientReads(true, 0));
    assert [ClientReads(true, 0)][..0] == [];
    assert PlayOut(next, [ClientReads(true, 0)]) == Step(PlayOut(next, []), ClientReads(true, 0));
  }

  // Between the two: the point is announced and the next serve waits.
  const WAITING :=
    World(Host(true, 1, 0, Some(LEFT), Some(LEFT), LEFT, 0, 1, [NextServe],
               [GameStart, Ping(SERVE, 1, 0, LEFT), Score(1, CLIENT, 0, 1, 0)]),
          2, [], LEFT, Some(LEFT), [Aimed(LEFT)], 0, false, true)

  lemma PointMade()
    ensures Step(Step(RALLIED, ServerReads(false, true)), Resumes(0, MIDDLE, true)) == WAITING
  {
    var w := Step(RALLIED, ServerReads(false, true));
    assert w.host.tasks == [Scored] && w.toServer == [];
  }

  lemma NextServed()
    ensures Step(WAITING, Resumes(0, MIDDLE, true)) == SCORED
  {
  }

  lemma ThePoint()
    ensures PlayOut(RALLIED, POINT) == SCORED
  {
    var m := Resumes(0, MIDDLE, true);
    PlayFirst(RALLIED, ServerReads(false, true), [m] + [m]);
    PlayFirst(Step(RALLIED, ServerReads(false, true)), m, [m]);
    PointMade();
    PlayFirst(WAITING, m, []);
    assert [m] + [] == [m];
    NextServed();
  }

  lemma SecondAim()
    ensures PlayOut(SCORED, SECOND_BALL).log == [Aimed(LEFT), ScoreRead, Aimed(LEFT)]
  {
    TwoReads(SCORED);
    FirstLane();
    var w := Step(SCORED, ClientReads(true, 0));
    assert w.log == [Aimed(LEFT), ScoreRead] && w.read == 3;
    assert Step(w, ClientReads(true, 0)).log == w.log + [Aimed(LEFT)];
  }

  /** A run in which the client aims at the same lane twice in a row. */
  lemma ClientCanRepeat()
    ensures PlayOut(START, FIRST_BALL + (POINT + SECOND_BALL)).log == [Aimed(LEFT), ScoreRead, Aimed(LEFT)]
  {
    PlayAppend(START, FIRST_BALL, POINT + SECOND_BALL);
    FirstBall();
    PlayAppend(RALLIED, POINT, SECOND_BALL);
    ThePoint();
    SecondAim();
  }

  /** The client's handler: where the player stands and where the last return went. */
  class Player {
    var position: Direction
    var lastReturn: Option<Direction>

    constructor ()
      ensures position == MIDDLE && lastReturn == None
    {
      position, lastReturn := MIDDLE, None;
    }

    /** A PING is answered by one PONG: a miss, or a return to a lane other than the
        last one, picked from those that are open. */
    method OnPing(direction: Direction, reached: bool) returns (reply: Request, pick: nat)
      modifies this
      ensures position == direction
      ensures !reached ==> reply == Pong(false, None) && lastReturn == old(lastReturn)
      ensures reached ==>
        && reply == Pong(true, lastReturn) && lastReturn.Some? && lastReturn != old(lastReturn)
        && pick < |Lanes(old(lastReturn))| && lastReturn == Some(Lanes(old(lastReturn))[pick])
    {
      position := direction;
      LanesExact(lastReturn);
      if !reached {
        return Pong(false, None), 0;
      }
      var targets := OpenLanes(lastReturn);
      pick :| pick < |targets|;
      assert targets[pick] in Lanes(lastReturn);
      lastReturn := Some(targets[pick]);
      reply := Pong(true, lastReturn);
    }

    method OnScore()
      modifies this
      ensures position == MIDDLE && lastReturn == None
    {
      position, lastReturn := MIDDLE, None;
    }
  }

  // ---- What the rules imply about anything the client is told

  /** The ball played last in the current match. */
  function LastBall(seen: seq<Announcement>): (d: Option<Direction>) {
    if seen == [] then None
    else
      var a := seen[|seen| - 1];
      if a.Ping? then Some(a.direction) else if a.GameStart? then None else LastBall(seen[..|seen| - 1])
  }

  lemma {:induction false} PhaseTells(seen: seq<Announcement>)
    requires Referee(seen).Some?
    ensures var p := Referee(seen).value;
      && (p.Ready? ==> p.last == LastBall(seen) && p.c < TARGET && p.s < TARGET)
      && (p.Ball? ==> Some(p.from) == LastBall(seen) && p.c < TARGET && p.s < TARGET)
    decreases |seen|
  {
    if seen != [] {
      PhaseTells(seen[..|seen| - 1]);
    }
  }

  lemma {:induction false} PrefixAccepted(seen: seq<Announcement>, n: nat)
    requires Referee(seen).Some? && n <= |seen|
    ensures Referee(seen[..n]).Some?
    decreases |seen|
  {
    if n < |seen| {
      PrefixAccepted(seen[..|seen| - 1], n);
      assert seen[..|seen| - 1][..n] == seen[..n];
    } else {
      assert seen[..n] == seen;
    }
  }

  /** Nobody sees the server play the same direction twice in a row. */
  lemma DirectionsAlternate(moves: seq<Move>, n: nat)
    requires n < |PlayOut(START, moves).host.sent| && PlayOut(START, moves).host.sent[n].Ping?
    ensures var sent := PlayOut(START, moves).host.sent; LastBall(sent[..n]) != Some(sent[n].direction)
  {
    var sent := PlayOut(START, moves).host.sent;
    AcceptedAt(moves, n);
    PhaseTells(sent[..n]);
  }

  lemma EveryStepAccepted(seen: seq<Announcement>, n: nat)
    requires Referee(seen).Some? && n < |seen|
    ensures Referee(seen[..n]).Some? && Watch(Referee(seen[..n]).value, seen[n]).Some?
  {
    PrefixAccepted(seen, n + 1);
    PrefixAccepted(seen, n);
    assert seen[..n + 1] == seen[..n] + [seen[n]];
    RefereeNext(seen[..n], seen[n]);
  }

  lemma AcceptedAt(moves: seq<Move>, n: nat)
    requires n < |PlayOut(START, moves).host.sent|
    ensures var sent := PlayOut(START, moves).host.sent;
      Referee(sent[..n]).Some? && Watch(Referee(sent[..n]).value, sent[n]).Some?
  {
    PlayedByTheRules(moves);
    EveryStepAccepted(PlayOut(START, moves).host.sent, n);
  }

  /** Every announced result has its winner at 11, the other side below, and as many
      rounds as points, 21 at most. */
  lemma ResultsAreSound(moves: seq<Move>, n: nat)
    requires n < |PlayOut(START, moves).host.sent| && PlayOut(START, moves).host.sent[n].MatchFinish?
    ensures var a := PlayOut(START, moves).host.sent[n];
      && (if a.winner == CLIENT then a.clientScore == TARGET > a.serverScore
          else a.serverScore == TARGET > a.clientScore)
      && a.point == a.winner && a.round == a.clientScore + a.serverScore <= 21
  {
    AcceptedAt(moves, n);
    PhaseTells(PlayOut(START, moves).host.sent[..n]);
  }
}
