// Who scores, and when it is over: the match's state as a function of the requests the
// server has read (examples/server/stomp_server.py:114-181, 258-262).
module Scoring {
  import opened Prelude
  import opened Matches

  /** The request a move makes the server read, if it does. */
  function ReadBy(w: World, m: Move): (q: Option<Request>) {
    var taken := m.ServerReads? && w.toServer != [] && Scored !in w.host.tasks && (m.arrives ==> w.linkUp);
    if taken then Some(w.toServer[0]) else None
  }

  // What the requests mean: the client missed, the server missed, or the rally goes on.
  predicate IsMiss(q: Request) { q.Pong? && !(q.pong && q.direction.Some?) }

  predicate IsReturned(q: Request) { q.Pong? && q.pong && q.direction.Some? }

  predicate Restarts(q: Option<Request>) { q == Some(Rematch(true)) }

  /** Whether the move serves a ball. */
  predicate Serves(w: World, m: Move) {
    && m.Resumes? && m.i < |w.host.tasks| && w.host.lastServerDirection != Some(m.d) && (m.arrives ==> w.linkUp)
    && (w.host.tasks[m.i].Announced? || (w.host.tasks[m.i].NextServe? && w.host.connected))
  }

  // serverPoints: misses read in this match; clientPoints: balls the server did not
  // reach; hits: balls it reached in this rally; lane: of the last ball returned in it;
  // left: whether a DISCONNECT was read.
  datatype Tally = Tally(serverPoints: nat, clientPoints: nat, hits: nat, lane: Option<Direction>, left: bool)

  const NOTHING := Tally(0, 0, 0, None, false)

  /** One more request, told by what it says alone. */
  function Tell(t: Tally, q: Request, reached: bool): (r: Tally) {
    if IsMiss(q) then t.(serverPoints := t.serverPoints + 1)
    else if IsReturned(q) && reached then t.(hits := t.hits + 1, lane := q.direction)
    else if IsReturned(q) then t.(clientPoints := t.clientPoints + 1, lane := q.direction)
    else if q == Rematch(true) then NOTHING.(left := t.left)
    else if q == Disconnect then t.(left := true)
    else t
  }

  function Told(moves: seq<Move>): (t: Tally) {
    if moves == [] then NOTHING
    else
      var k := |moves| - 1;
      var t, w := Told(moves[..k]), PlayOut(START, moves[..k]);
      var q := ReadBy(w, moves[k]);
      if q.Some? then Tell(t, q.value, moves[k].reached)
      else if Serves(w, moves[k]) then t.(hits := 0, lane := None)
      else t
  }

  predicate Fits(h: Host, t: Tally) {
    && h.serverScore == t.serverPoints && h.clientScore == t.clientPoints && h.rallyHits == t.hits
    && h.serverPosition == (if t.lane.Some? then t.lane.value else MIDDLE)
    && (t.left ==> !h.connected)
  }

  lemma BroadcastFits(h: Host, a: Announcement, arrives: bool, t: Tally)
    requires Fits(h, t)
    ensures Fits(Broadcast(h, a, arrives), t)
  {
  }

  lemma PointFits(h: Host, side: Side, arrives: bool, t: Tally)
    requires Fits(h, t)
    ensures Fits(Point(h, side, arrives), t)
  {
  }

  lemma PongFits(h: Host, pong: bool, direction: Option<Direction>, reached: bool, arrives: bool, t: Tally)
    requires Fits(h, t)
    ensures Fits(OnPong(h, pong, direction, reached, arrives), Tell(t, Pong(pong, direction), reached))
  {
    var next := Tell(t, Pong(pong, direction), reached);
    if !(pong && direction.Some?) {
      PointFits(h.(serverScore := h.serverScore + 1), SERVER, arrives, next);
    } else if !reached {
      PointFits(h.(serverPosition := direction.value, clientScore := h.clientScore + 1), CLIENT, arrives, next);
    }
  }

  lemma RequestFits(h: Host, q: Request, reached: bool, arrives: bool, t: Tally)
    requires Fits(h, t)
    ensures Fits(OnRequest(h, q, reached, arrives), Tell(t, q, reached))
  {
    match q
    case Pong(pong, direction) => PongFits(h, pong, direction, reached, arrives, t);
    case Rematch(again) =>
      if !again {
        BroadcastFits(h, GameOver, arrives, t);
      }
    case Disconnect =>
  }

  lemma BallFits(h: Host, shot: Shot, d: Direction, arrives: bool, t: Tally)
    requires Fits(h, t)
    ensures Fits(PlayBall(h, shot, d, arrives), t)
  {
  }

  lemma ResumeFits(h: Host, task: Task, d: Direction, arrives: bool, t: Tally)
    requires Fits(h, t)
    ensures var served := task.Announced? || (task.NextServe? && h.connected);
      Fits(Resume(h, task, d, arrives), if served then t.(hits := 0, lane := None) else t)
  {
    if task.Announced? || (task.NextServe? && h.connected) {
      var ready := h.(roundNumber := h.roundNumber + 1, rallyHits := 0, serverPosition := MIDDLE);
      BallFits(ready, SERVE, d, arrives, t.(hits := 0, lane := None));
    } else if task.RallyReturn? && h.connected {
      BallFits(h, RALLY, d, arrives, t);
    } else if task.Starting? {
      BroadcastFits(h, GameStart, arrives, t);
    }
  }

  lemma ClientKeepsHost(w: World, m: Move)
    requires m.ClientReads? || m.Answers? || m.Leaves?
    ensures Step(w, m).host == w.host
  {
  }

  lemma StepFits(w: World, m: Move, t: Tally)
    requires Fits(w.host, t)
    ensures var q := ReadBy(w, m);
      Fits(Step(w, m).host, if q.Some? then Tell(t, q.value, m.reached)
                            else if Serves(w, m) then t.(hits := 0, lane := None) else t)
  {
    match m
    case Resumes(i, d, arrives) =>
      if i < |w.host.tasks| && w.host.lastServerDirection != Some(d) && (arrives ==> w.linkUp) {
        ResumeFits(w.host.(tasks := w.host.tasks[..i] + w.host.tasks[i + 1..]), w.host.tasks[i], d, arrives, t);
      }
    case ServerReads(reached, arrives) =>
      if ReadBy(w, m).Some? {
        RequestFits(w.host, w.toServer[0], reached, arrives, t);
      }
    case LinkDrops =>
    case _ => ClientKeepsHost(w, m);
  }

  /** Over every run: in the current match the server has as many points as misses it has
      read, the client as many as returned balls the server did not reach; the rally has
      as many hits as balls it reached since the serve; the server stands where the
      ball returned last in it was played to, in the middle before one. */
  lemma {:induction false} ScoresAreEarned(moves: seq<Move>)
    ensures Fits(PlayOut(START, moves).host, Told(moves))
    decreases |moves|
  {
    if moves != [] {
      var k := |moves| - 1;
      ScoresAreEarned(moves[..k]);
      StepFits(PlayOut(START, moves[..k]), moves[k], Told(moves[..k]));
    }
  }

  /** In every state of every run: a ball the server reaches adds one hit and one return
      to come, and scores and announces nothing. */
  lemma ReachedGoesOn(moves: seq<Move>, reached: bool, arrives: bool)
    requires var q := ReadBy(PlayOut(START, moves), ServerReads(reached, arrives)); q.Some? && IsReturned(q.value)
    ensures var w := PlayOut(START, moves);
      var h, n := w.host, Step(w, ServerReads(reached, arrives)).host;
      if reached then
        && n.rallyHits == h.rallyHits + 1 && n.tasks == h.tasks + [RallyReturn] && n.sent == h.sent
        && n.clientScore == h.clientScore && n.serverScore == h.serverScore && n.roundNumber == h.roundNumber
      else n.clientScore == h.clientScore + 1 && n.serverScore == h.serverScore && n.rallyHits == h.rallyHits
  {
    var w := PlayOut(START, moves);
    var q := w.toServer[0];
    ScoresAreEarned(moves);
    PongFits(w.host, q.pong, q.direction, reached, arrives, Told(moves));
  }

  // ---- A player who has left

  lemma GoneStaysGone(w: World, m: Move)
    requires !w.host.connected
    ensures !Step(w, m).host.connected && Step(w, m).host.sent == w.host.sent
  {
    match m
    case Resumes(i, d, arrives) =>
      if i < |w.host.tasks| && w.host.lastServerDirection != Some(d) && (arrives ==> w.linkUp) {
        ResumeSilent(w.host.(tasks := w.host.tasks[..i] + w.host.tasks[i + 1..]), w.host.tasks[i], d, arrives);
      }
    case ServerReads(reached, arrives) =>
      if ReadBy(w, m).Some? {
        RequestSilent(w.host, w.toServer[0], reached, arrives);
      }
    case LinkDrops =>
    case _ => ClientKeepsHost(w, m);
  }

  lemma ResumeSilent(h: Host, task: Task, d: Direction, arrives: bool)
    requires !h.connected
    ensures var r := Resume(h, task, d, arrives); !r.connected && r.sent == h.sent
  {
  }

  lemma RequestSilent(h: Host, q: Request, reached: bool, arrives: bool)
    requires !h.connected
    ensures var r := OnRequest(h, q, reached, arrives); !r.connected && r.sent == h.sent
  {
  }

  /** Once the server has read a DISCONNECT it announces nothing more, whatever else is
      still to run. */
  lemma {:induction false} SilentAfterDisconnect(moves: seq<Move>, more: seq<Move>)
    requires Told(moves).left
    ensures PlayOut(START, moves + more).host.sent == PlayOut(START, moves).host.sent
    ensures !PlayOut(START, moves + more).host.connected
    decreases |more|
  {
    ScoresAreEarned(moves);
    if more == [] {
      assert moves + more == moves;
    } else {
      var front, last := more[..|more| - 1], more[|more| - 1];
      SilentAfterDisconnect(moves, front);
      assert more == front + [last];
      Regroup(moves, front, [last]);
      PlayLast(START, moves + front, last);
      GoneStaysGone(PlayOut(START, moves + front), last);
    }
  }

  // ---- Where the client stands

  /** The lane of the last ball read since the last SCORE, the middle before one. */
  function LastHeard(heard: seq<Announcement>): (d: Direction) {
    if heard == [] then MIDDLE
    else
      var a := heard[|heard| - 1];
      if a.Ping? then a.direction else if a.Score? then MIDDLE else LastHeard(heard[..|heard| - 1])
  }

  predicate Stands(w: World) { w.read <= |w.host.sent| && w.position == LastHeard(w.host.sent[..w.read]) }

  lemma HeardMore(w: World, n: World)
    requires Stands(w) && n.read == w.read && w.host.sent <= n.host.sent && n.position == w.position
    ensures Stands(n)
  {
    assert n.host.sent[..n.read] == w.host.sent[..w.read];
  }

  lemma ResumeSaysMore(h: Host, task: Task, d: Direction, arrives: bool)
    ensures h.sent <= Resume(h, task, d, arrives).sent
  {
  }

  lemma RequestSaysMore(h: Host, q: Request, reached: bool, arrives: bool)
    ensures h.sent <= OnRequest(h, q, reached, arrives).sent
  {
  }

  lemma HostSaysMore(w: World, m: Move)
    ensures w.host.sent <= Step(w, m).host.sent
  {
    match m
    case Resumes(i, d, arrives) =>
      if i < |w.host.tasks| && w.host.lastServerDirection != Some(d) && (arrives ==> w.linkUp) {
        ResumeSaysMore(w.host.(tasks := w.host.tasks[..i] + w.host.tasks[i + 1..]), w.host.tasks[i], d, arrives);
      }
    case ServerReads(reached, arrives) =>
      if ReadBy(w, m).Some? {
        RequestSaysMore(w.host, w.toServer[0], reached, arrives);
      }
    case LinkDrops =>
    case _ => ClientKeepsHost(w, m);
  }

  lemma StepStands(w: World, m: Move)
    requires Stands(w)
    ensures Stands(Step(w, m))
  {
    HostSaysMore(w, m);
    var n := Step(w, m);
    if m.ClientReads? && w.read < |w.host.sent| && m.pick < |Lanes(w.lastReturn)| {
      ClientKeepsHost(w, m);
      assert n.host.sent[..n.read][..w.read] == w.host.sent[..w.read];
    } else {
      HeardMore(w, n);
    }
  }

  /** Over every run the client stands in the lane of the last ball it has read, or in the
      middle after a SCORE and at the start. */
  lemma {:induction false} ClientStands(moves: seq<Move>)
    ensures Stands(PlayOut(START, moves))
    decreases |moves|
  {
    if moves != [] {
      ClientStands(moves[..|moves| - 1]);
      StepStands(PlayOut(START, moves[..|moves| - 1]), moves[|moves| - 1]);
    }
  }

  // ---- What the client sends

  /** The request a move makes the client send, told by what it read or was asked. */
  function Asked(w: World, m: Move): (q: Option<Request>) {
    if m.Leaves? then Some(Disconnect)
    else if m.Answers? && w.prompts > 0 then Some(Rematch(m.again))
    else if m.ClientReads? && w.read < |w.host.sent| && w.host.sent[w.read].Ping? && m.pick < |Lanes(w.lastReturn)| then
      Some(if m.reached then Pong(true, Some(Lanes(w.lastReturn)[m.pick])) else Pong(false, None))
    else None
  }

  /** In every state: the client answers each ball it reads, with a miss exactly when it
      did not reach it, passes on the user's answer to the rematch question, and takes its
      leave; the server reads the requests in order. */
  lemma RequestsInOrder(w: World, m: Move)
    ensures Step(w, m).toServer ==
      if m.LinkDrops? then []
      else w.toServer[if ReadBy(w, m).Some? then 1 else 0..]
           + if Asked(w, m).Some? && w.linkUp then [Asked(w, m).value] else []
  {
    assert w.toServer[0..] == w.toServer && w.toServer + [] == w.toServer;
    if ReadBy(w, m).Some? {
      assert w.toServer[1..] + [] == w.toServer[1..];
    }
  }
}
