// What a thread of the transport has done on its way: the close frame of closeLocked, the
// handshake of open, the report of a failed receive (src/CurlTransport.cpp:236-389,
// 660-747). Calls that are possible are shown to be reached.
module LifecyclePaths {
  import opened Prelude
  import opened Lifecycle

  // ---- Landmarks

  datatype Landmark =
    | SessionFound      // closeLocked took m_connected from true to false
    | CloseMasked       // sendCloseFrame held m_curlMutex to draw its mask key
    | CloseSending      // its frame was given to curl_easy_send
    | Performing        // curl_easy_perform
    | UpgradeSending    // the upgrade request was given to curl_easy_send
    | AnswerReading     // curl_easy_recv, for the answer
    | FailedRunning     // a receive failed while m_running was true
    | ErrorReported     // the error callback

  predicate AtExchange(pc: Pc) { pc.Close? && pc.c.Exchange? }

  predicate AtCloseFrame(pc: Pc) { pc.Write? && pc.why.ForClose? }

  function MarksAt(pc: Pc): (m: set<Landmark>) {
    match pc
    case Write(MaskHeld, ForClose(_)) => {CloseMasked}
    case Write(Writing(_), ForClose(_)) => {CloseSending}
    case Open(Perform(_)) => {Performing}
    case Write(Writing(_), ForUpgrade) => {UpgradeSending}
    case Open(Reading(_)) => {AnswerReading}
    case Work(ReportError) => {ErrorReported}
    case _ => {}
  }

  /** The landmarks of a thread that gets from p to q, and the two flags it finds. */
  function MarksOf(p: Pc, q: Pc, connected: bool, running: bool): (m: set<Landmark>) {
    MarksAt(q) + (if AtExchange(p) && q != p && connected then {SessionFound} else {})
      + (if p == Work(ReceiveFailed) && q != p && running then {FailedRunning} else {})
  }

  /** Where a thread forgets: before it takes m_lifecycleMutex, and at the top of the
      worker's loop. */
  predicate Afresh(pc: Pc) { (pc.Close? && pc.c.LifecycleLock?) || pc == Work(Loop) }

  function Onward(p: Pc, q: Pc, connected: bool, running: bool, m: set<Landmark>): (n: set<Landmark>) {
    if Afresh(q) then {} else m + MarksOf(p, q, connected, running)
  }

  /** The landmarks a thread has passed since. */
  ghost function Passed(run: seq<State>, i: nat, t: Tid): (m: set<Landmark>)
    requires i < |run|
  {
    if i == 0 || t >= |run[i].pcs| || t >= |run[i - 1].pcs| then {}
    else
      var s, r := run[i - 1], run[i];
      Onward(s.pcs[t], r.pcs[t], s.connected, s.running, Passed(run, i - 1, t))
  }

  // ---- What a place implies about them

  /** A close frame was drawn up and given to libcurl exactly when there was a session. */
  predicate CloseDone(m: set<Landmark>) {
    (SessionFound in m <==> CloseSending in m) && (SessionFound in m <==> CloseMasked in m)
  }

  predicate CloseUnderWay(w: WritePc, m: set<Landmark>) {
    && SessionFound in m && !w.CheckConnected? && (CloseMasked in m <==> !w.MaskLock?)
    && (CloseSending in m ==> !w.MaskLock? && !w.MaskHeld?) && (w.Writing? ==> CloseSending in m)
  }

  predicate NoClose(m: set<Landmark>) { SessionFound !in m && CloseSending !in m && CloseMasked !in m }

  // The close frame, the handshake, the report of an error.
  predicate CloseTold(pc: Pc, m: set<Landmark>) {
    match pc
    case Write(w, ForClose(_)) => CloseUnderWay(w, m)
    case Write(_, ForUpgrade) => CloseDone(m)
    case Poll(_, worker) => worker || CloseDone(m)
    case Close(c, _) =>
      if c.LifecycleLock? || c.Exchange? then NoClose(m) else CloseDone(m) && (c.AwaitAck? ==> c.i <= 20)
    case Open(_) => CloseDone(m)
    case _ => true
  }

  predicate OpenTold(pc: Pc, m: set<Landmark>) {
    match pc
    case Write(w, ForUpgrade) => Performing in m && (w.Writing? ==> UpgradeSending in m)
    case Poll(_, worker) => worker || (Performing in m && UpgradeSending in m)
    case Open(o) =>
      && (o.Perform? || o.ReadLock? || o.Reading? || o.SetRunning? || o.SetConnected? || o.Spawn? ==> Performing in m)
      && (o.ReadLock? || o.Reading? || o.SetRunning? || o.SetConnected? || o.Spawn? ==> UpgradeSending in m)
      && (o.Reading? || o.SetRunning? || o.SetConnected? || o.Spawn? ==> AnswerReading in m)
    case _ => true
  }

  predicate WorkTold(pc: Pc, m: set<Landmark>) {
    match pc
    case Write(_, why) =>
      (why.ForErrorCallback? ==> ErrorReported in m) && (why.ForCallback? || why.ForPong? ==> FailedRunning !in m)
    case Poll(_, worker) => worker ==> FailedRunning !in m
    case Work(k) =>
      if k.ClearConnected? || k.ClearRunning? || k.NotifyClose? || k.Ended? then
        FailedRunning in m ==> ErrorReported in m
      else if k.ReportError? then ErrorReported in m
      else k.NoWorker? || FailedRunning !in m
    case _ => true
  }

  predicate Recorded(pc: Pc, m: set<Landmark>) { CloseTold(pc, m) && OpenTold(pc, m) && WorkTold(pc, m) }

  ghost predicate Kept(s: State, t: Tid, m: set<Landmark>)
    requires t < |s.pcs|
  {
    Recorded(s.pcs[t], m) && (AtCloseFrame(s.pcs[t]) ==> s.handle.Some?)
  }

  // ---- A step of another thread

  lemma MoveSafe(s: State, u: Tid, r: State)
    requires Inv(s) && u < |s.pcs| && (Step(s, u, r) || Call(s, u, r))
    ensures Effect(s, u, r)
  {
    LocalFromInv(s, u);
    if Call(s, u, r) {
      CallIsQuiet(s, u, r);
      QuietIsHarmless(s, u, r);
    } else if WriteStep(s, u, r) {
      WriteStepSafe(s, u, r);
    } else if CloseStep(s, u, r) {
      CloseStepSafe(s, u, r);
    } else if OpenStep(s, u, r) {
      OpenStepSafe(s, u, r);
    } else {
      WorkerStepSafe(s, u, r);
    }
  }

  lemma OthersStay(s: State, u: Tid, r: State, t: Tid)
    requires Inv(s) && u < |s.pcs| && t < |s.pcs| && t != u && Effect(s, u, r)
    ensures |r.pcs| == |s.pcs|
    ensures r.pcs[t] == s.pcs[t] || (t == 0 && (r.pcs[0] == Work(NoWorker) || r.pcs[0] == Work(Loop)) && s.pcs[0].Work?
                                     && s.pcs[0] != Work(ReceiveFailed))
    ensures HoldsLifecycle(s.pcs[t]) ==> r.handle == s.handle
  {
    assert ThreadLocks(s, t) && ThreadLocks(s, u);
    if s.pcs[u] == Open(Spawn) && t == 0 {
      SpawnFindsNoWorker(s, u);
    }
  }

  /** Where the thread stays, it passes nothing new. */
  lemma NothingNew(pc: Pc, connected: bool, running: bool, m: set<Landmark>)
    requires Recorded(pc, m)
    ensures Onward(pc, pc, connected, running, m) == if Afresh(pc) then {} else m
    ensures Recorded(pc, Onward(pc, pc, connected, running, m))
  {
    assert MarksOf(pc, pc, connected, running) == MarksAt(pc);
    assert MarksAt(pc) <= m;
  }

  lemma OtherKeeps(s: State, u: Tid, r: State, t: Tid, m: set<Landmark>)
    requires Inv(s) && u < |s.pcs| && t < |s.pcs| && t != u && Effect(s, u, r) && Kept(s, t, m)
    ensures t < |r.pcs| && Kept(r, t, Onward(s.pcs[t], r.pcs[t], s.connected, s.running, m))
  {
    OthersStay(s, u, r, t);
    if r.pcs[t] == s.pcs[t] {
      NothingNew(s.pcs[t], s.connected, s.running, m);
    }
  }

  // ---- Where a thread can go next

  predicate WriteEdge(w: WritePc, why: Purpose, q: Pc, connected: bool, handle: bool) {
    match w
    case CheckConnected => q == if connected then Write(MaskLock, why) else Written(why, false)
    case MaskLock => q == Write(MaskHeld, why)
    case MaskHeld => q == if why.ForClose? && !handle then Close(AwaitAck(0), why.after) else Write(WriteLock, why)
    case WriteLock => q == Write(WriteHeld, why)
    case WriteHeld => if handle then q.Write? && q.w.Writing? && q.why == why else q == Written(why, false)
    case Writing(_) => q == Write(WriteLock, why) || q == Written(why, true) || q == Written(why, false)
  }

  predicate CloseEdge(c: ClosePc, after: After, q: Pc, connected: bool, running: bool) {
    match c
    case LifecycleLock => q == Close(Exchange, after)
    case Exchange => q == if connected then Write(MaskLock, ForClose(after)) else Close(StopWorker, after)
    case AwaitAck(i) => q == if i < 20 && running then Close(AwaitAck(i + 1), after) else Close(StopWorker, after)
    case StopWorker => q == Close(Join, after)
    case Join => q == Close(TearLock, after)
    case TearLock => q == Close(TearHeld, after)
    case TearHeld => q.Close? && q.after == after && (q.c.Tearing? || q.c.Closed?)
    case Tearing(_) => q == Close(Closed, after)
    case Closed => q == if after.Reopen? then Open(Parse) else Idle
  }

  predicate OpenEdge(o: OpenPc, q: Pc) {
    match o
    case Parse => q == Open(Leave) || q == Open(Init)
    case Init => q == Open(Leave) || (q.Open? && q.o.SetLock?)
    case SetLock(h) => q == Open(SetHeld(h))
    case SetHeld(_) => q == Open(Configure)
    case Configure => q.Open? && q.o.Options?
    case Options(_) => q.Open? && q.o.Perform?
    case Perform(_) => q == Open(FailLock) || q == Write(WriteLock, ForUpgrade)
    case ReadLock => q.Open? && q.o.Reading?
    case Reading(_) => q == Poll(PollLock, false) || q == Open(FailLock) || q == Open(SetRunning)
    case FailLock => q == Open(FailHeld)
    case FailHeld => q == Open(Leave) || (q.Open? && q.o.Failing?)
    case Failing(_) => q == Open(Leave)
    case SetRunning => q == Open(SetConnected)
    case SetConnected => q == Open(Spawn)
    case Spawn => q == Open(Leave)
    case Leave => q == Idle
  }

  predicate WorkEdge(k: WorkPc, q: Pc, running: bool) {
    match k
    case Loop => q == if running then Poll(PollLock, true) else Work(ClearConnected)
    case RecvLock => q == Work(RecvHeld)
    case RecvHeld => q.Work? && (q.k.ClearConnected? || q.k.Receiving?)
    case Receiving(_) =>
      q == Work(Loop) || q == Work(ClearConnected) || q == Work(ReceiveFailed) || q == Work(Dispatch)
    case ReceiveFailed => q == Work(if running then ReportError else ClearConnected)
    case ReportError => q == Write(CheckConnected, ForErrorCallback) || q == Work(ClearConnected)
    case Dispatch => q == Work(Loop) || q == Write(MaskLock, ForPong) || q == Write(CheckConnected, ForCallback)
    case ClearConnected => q == Work(ClearRunning)
    case ClearRunning => q == Work(NotifyClose)
    case NotifyClose => q == Work(Ended)
    case _ => false
  }

  predicate Edge(p: Pc, q: Pc, connected: bool, running: bool, handle: bool) {
    match p
    case Idle => q == Write(CheckConnected, ForSend) || (q.Close? && q.c.LifecycleLock?)
    case Write(w, why) => WriteEdge(w, why, q, connected, handle)
    case Poll(_, worker) => (q.Poll? && q.worker == worker) || q == if worker then Work(RecvLock) else Open(ReadLock)
    case Close(c, after) => CloseEdge(c, after, q, connected, running)
    case Open(o) => OpenEdge(o, q)
    case Work(k) => WorkEdge(k, q, running)
  }

  lemma MaskGoes(s: State, t: Tid, r: State)
    requires t < |s.pcs| && t < |r.pcs| && MaskStep(s, t, r)
    ensures Edge(s.pcs[t], r.pcs[t], s.connected, s.running, s.handle.Some?)
  {
  }

  lemma SendGoes(s: State, t: Tid, r: State)
    requires t < |s.pcs| && t < |r.pcs| && SendStep(s, t, r)
    ensures Edge(s.pcs[t], r.pcs[t], s.connected, s.running, s.handle.Some?)
  {
  }

  lemma PollGoes(s: State, t: Tid, r: State)
    requires t < |s.pcs| && t < |r.pcs| && PollStep(s, t, r)
    ensures Edge(s.pcs[t], r.pcs[t], s.connected, s.running, s.handle.Some?)
  {
  }

  lemma CloseGoes(s: State, t: Tid, r: State)
    requires t < |s.pcs| && t < |r.pcs| && CloseStep(s, t, r)
    ensures Edge(s.pcs[t], r.pcs[t], s.connected, s.running, s.handle.Some?)
  {
  }

  lemma OpenFirstGoes(s: State, t: Tid, r: State)
    requires t < |s.pcs| && t < |r.pcs| && (OpenStartStep(s, t, r) || HandleStep(s, t, r) || ConnectStep(s, t, r))
    ensures Edge(s.pcs[t], r.pcs[t], s.connected, s.running, s.handle.Some?)
  {
  }

  lemma UpgradeGoes(s: State, t: Tid, r: State)
    requires t < |s.pcs| && t < |r.pcs| && UpgradeStep(s, t, r)
    ensures Edge(s.pcs[t], r.pcs[t], s.connected, s.running, s.handle.Some?)
  {
  }

  lemma OpenFailGoes(s: State, t: Tid, r: State)
    requires t < |s.pcs| && t < |r.pcs| && OpenFailStep(s, t, r)
    ensures Edge(s.pcs[t], r.pcs[t], s.connected, s.running, s.handle.Some?)
  {
  }

  lemma OpenDoneGoes(s: State, t: Tid, r: State)
    requires t < |s.pcs| && t < |r.pcs| && OpenDoneStep(s, t, r) && (t == 0 ==> s.pcs[t] != Open(Spawn))
    ensures Edge(s.pcs[t], r.pcs[t], s.connected, s.running, s.handle.Some?)
  {
  }

  lemma ReceiveGoes(s: State, t: Tid, r: State)
    requires t < |s.pcs| && t < |r.pcs| && ReceiveStep(s, t, r)
    ensures Edge(s.pcs[t], r.pcs[t], s.connected, s.running, s.handle.Some?)
  {
  }

  lemma WorkerLastGoes(s: State, t: Tid, r: State)
    requires t < |s.pcs| && t < |r.pcs| && (ErrorStep(s, t, r) || DispatchStep(s, t, r) || WorkerEndStep(s, t, r))
    ensures Edge(s.pcs[t], r.pcs[t], s.connected, s.running, s.handle.Some?)
  {
  }

  lemma CallGoes(s: State, t: Tid, r: State)
    requires t < |s.pcs| && t < |r.pcs| && Call(s, t, r)
    ensures Edge(s.pcs[t], r.pcs[t], s.connected, s.running, s.handle.Some?)
  {
  }

  lemma EdgeCloses(p: Pc, q: Pc, connected: bool, running: bool, handle: bool, m: set<Landmark>)
    requires Edge(p, q, connected, running, handle) && CloseTold(p, m) && (AtCloseFrame(p) ==> handle)
    ensures CloseTold(q, Onward(p, q, connected, running, m))
  {
  }

  lemma EdgeOpens(p: Pc, q: Pc, connected: bool, running: bool, handle: bool, m: set<Landmark>)
    requires Edge(p, q, connected, running, handle) && OpenTold(p, m)
    ensures OpenTold(q, Onward(p, q, connected, running, m))
  {
  }

  lemma EdgeWorks(p: Pc, q: Pc, connected: bool, running: bool, handle: bool, m: set<Landmark>)
    requires Edge(p, q, connected, running, handle) && WorkTold(p, m)
    ensures WorkTold(q, Onward(p, q, connected, running, m))
  {
  }

  lemma StepGoes(s: State, t: Tid, r: State)
    requires t < |s.pcs| && t < |r.pcs| && (Step(s, t, r) || Call(s, t, r)) && (t == 0 ==> s.pcs[t] != Open(Spawn))
    ensures Edge(s.pcs[t], r.pcs[t], s.connected, s.running, s.handle.Some?)
  {
    if Call(s, t, r) {
      CallGoes(s, t, r);
    } else if MaskStep(s, t, r) {
      MaskGoes(s, t, r);
    } else if SendStep(s, t, r) {
      SendGoes(s, t, r);
    } else if PollStep(s, t, r) {
      PollGoes(s, t, r);
    } else if CloseStep(s, t, r) {
      CloseGoes(s, t, r);
    } else if OpenStep(s, t, r) {
      OpenGoes(s, t, r);
    } else if ReceiveStep(s, t, r) {
      ReceiveGoes(s, t, r);
    } else {
      WorkerLastGoes(s, t, r);
    }
  }

  lemma OpenGoes(s: State, t: Tid, r: State)
    requires t < |s.pcs| && t < |r.pcs| && OpenStep(s, t, r) && (t == 0 ==> s.pcs[t] != Open(Spawn))
    ensures Edge(s.pcs[t], r.pcs[t], s.connected, s.running, s.handle.Some?)
  {
    if OpenStartStep(s, t, r) || HandleStep(s, t, r) || ConnectStep(s, t, r) {
      OpenFirstGoes(s, t, r);
    } else if OpenDoneStep(s, t, r) {
      OpenDoneGoes(s, t, r);
    } else if UpgradeStep(s, t, r) {
      UpgradeGoes(s, t, r);
    } else {
      OpenFailGoes(s, t, r);
    }
  }

  /** A session that closeLocked finds has its handle. */
  lemma FoundHasHandle(s: State, t: Tid)
    requires Inv(s) && t < |s.pcs| && AtExchange(s.pcs[t]) && s.connected
    ensures s.handle.Some?
  {
    assert ThreadLocks(s, t);
  }

  lemma MaskKeepsHandle(s: State, t: Tid, r: State)
    requires t < |s.pcs| && MaskStep(s, t, r)
    ensures r.handle == s.handle
  {
  }

  lemma WriteKeepsHandle(s: State, t: Tid, r: State)
    requires t < |s.pcs| && WriteStep(s, t, r)
    ensures r.handle == s.handle
  {
    if MaskStep(s, t, r) {
      MaskKeepsHandle(s, t, r);
    }
  }

  lemma ExchangeKeepsHandle(s: State, t: Tid, r: State)
    requires t < |s.pcs| && AtExchange(s.pcs[t]) && CloseStep(s, t, r)
    ensures r.handle == s.handle
  {
  }

  lemma HandleStays(s: State, t: Tid, r: State)
    requires t < |s.pcs| && (AtCloseFrame(s.pcs[t]) || AtExchange(s.pcs[t])) && (Step(s, t, r) || Call(s, t, r))
    ensures r.handle == s.handle
  {
    if WriteStep(s, t, r) {
      WriteKeepsHandle(s, t, r);
    } else if CloseStep(s, t, r) {
      ExchangeKeepsHandle(s, t, r);
    }
  }

  lemma EdgeToClose(p: Pc, q: Pc, connected: bool, running: bool, handle: bool)
    requires Edge(p, q, connected, running, handle) && AtCloseFrame(q)
    ensures AtCloseFrame(p) || (AtExchange(p) && connected)
  {
  }

  /** And keeps it while the close frame is written. */
  lemma CloseHasHandle(s: State, t: Tid, r: State)
    requires Inv(s) && t < |s.pcs| && t < |r.pcs| && (Step(s, t, r) || Call(s, t, r)) && AtCloseFrame(r.pcs[t])
    requires AtCloseFrame(s.pcs[t]) ==> s.handle.Some?
    requires Edge(s.pcs[t], r.pcs[t], s.connected, s.running, s.handle.Some?)
    ensures r.handle.Some?
  {
    EdgeToClose(s.pcs[t], r.pcs[t], s.connected, s.running, s.handle.Some?);
    HandleStays(s, t, r);
    if !AtCloseFrame(s.pcs[t]) {
      FoundHasHandle(s, t);
    }
  }

  lemma OwnKeeps(s: State, t: Tid, r: State, m: set<Landmark>)
    requires Inv(s) && t < |s.pcs| && t < |r.pcs| && Kept(s, t, m) && (Step(s, t, r) || Call(s, t, r))
    ensures Kept(r, t, Onward(s.pcs[t], r.pcs[t], s.connected, s.running, m))
  {
    var p, q := s.pcs[t], r.pcs[t];
    if p == Open(Spawn) {
      SpawnFindsNoWorker(s, t);
    }
    StepGoes(s, t, r);
    EdgeCloses(p, q, s.connected, s.running, s.handle.Some?, m);
    EdgeOpens(p, q, s.connected, s.running, s.handle.Some?, m);
    EdgeWorks(p, q, s.connected, s.running, s.handle.Some?, m);
    if AtCloseFrame(q) {
      CloseHasHandle(s, t, r);
    }
  }

  /** Who moves between two states of a run. */
  lemma Mover(run: seq<State>, i: nat) returns (u: Tid)
    requires IsRun(run) && 0 < i < |run|
    ensures u < |run[i - 1].pcs| && (Step(run[i - 1], u, run[i]) || Call(run[i - 1], u, run[i]))
    ensures Inv(run[i - 1]) && Effect(run[i - 1], u, run[i])
  {
    assert Next(run[i - 1], run[i - 1 + 1]);
    RunKeepsInv(run, i - 1);
    u :| u < |run[i - 1].pcs| && (Step(run[i - 1], u, run[i]) || Call(run[i - 1], u, run[i]));
    MoveSafe(run[i - 1], u, run[i]);
  }

  lemma MoveRecords(s: State, u: Tid, r: State, t: Tid, m: set<Landmark>)
    requires Inv(s) && u < |s.pcs| && t < |s.pcs| && Kept(s, t, m)
    requires (Step(s, u, r) || Call(s, u, r)) && Effect(s, u, r)
    ensures t < |r.pcs| && Kept(r, t, Onward(s.pcs[t], r.pcs[t], s.connected, s.running, m))
  {
    if u == t {
      OwnKeeps(s, t, r, m);
    } else {
      OtherKeeps(s, u, r, t, m);
    }
  }

  lemma StartRecords(s: State, t: Tid)
    requires Start(s) && t < |s.pcs|
    ensures Kept(s, t, {})
  {
    assert s.pcs[t] == Idle || s.pcs[t] == Work(NoWorker);
  }

  /** The landmarks of one more step. */
  ghost function After(run: seq<State>, i: nat, t: Tid, m: set<Landmark>): (n: set<Landmark>)
    requires 0 < i < |run| && t < |run[i - 1].pcs| && t < |run[i].pcs|
  {
    Onward(run[i - 1].pcs[t], run[i].pcs[t], run[i - 1].connected, run[i - 1].running, m)
  }

  lemma RunMoves(run: seq<State>, i: nat, t: Tid, m: set<Landmark>)
    requires IsRun(run) && 0 < i < |run| && t < |run[i - 1].pcs| && Kept(run[i - 1], t, m)
    ensures t < |run[i].pcs| && Kept(run[i], t, After(run, i, t, m))
  {
    var u := Mover(run, i);
    MoveRecords(run[i - 1], u, run[i], t, m);
  }

  lemma SameThreads(run: seq<State>, i: nat)
    requires IsRun(run) && 0 < i < |run|
    ensures |run[i].pcs| == |run[i - 1].pcs|
  {
    var u := Mover(run, i);
  }

  lemma PassedNext(run: seq<State>, i: nat, t: Tid)
    requires 0 < i < |run| && t < |run[i - 1].pcs| && t < |run[i].pcs|
    ensures Passed(run, i, t) == After(run, i, t, Passed(run, i - 1, t))
  {
  }

  lemma NextRecords(run: seq<State>, i: nat, t: Tid)
    requires IsRun(run) && 0 < i < |run| && t < |run[i - 1].pcs| && Kept(run[i - 1], t, Passed(run, i - 1, t))
    ensures t < |run[i].pcs| && Kept(run[i], t, Passed(run, i, t))
  {
    RunMoves(run, i, t, Passed(run, i - 1, t));
    PassedNext(run, i, t);
  }

  lemma FirstRecords(run: seq<State>, t: Tid)
    requires IsRun(run) && t < |run[0].pcs|
    ensures Kept(run[0], t, Passed(run, 0, t))
  {
    StartRecords(run[0], t);
  }

  lemma {:induction false} RunRecords(run: seq<State>, i: nat, t: Tid)
    requires IsRun(run) && i < |run| && t < |run[i].pcs|
    ensures Kept(run[i], t, Passed(run, i, t))
    decreases i, 1
  {
    if i == 0 {
      FirstRecords(run, t);
    } else {
      SameThreads(run, i);
      RecordsBefore(run, i, t);
      NextRecords(run, i, t);
    }
  }

  lemma {:induction false} RecordsBefore(run: seq<State>, i: nat, t: Tid)
    requires IsRun(run) && 0 < i < |run| && t < |run[i - 1].pcs|
    ensures Kept(run[i - 1], t, Passed(run, i - 1, t))
    decreases i, 0
  {
    RunRecords(run, i - 1, t);
  }

  // ---- Main results, over every run

  /** Wherever a thread is behind the exchange of m_connected in closeLocked, or in the
      rest of the `open` that called it: it has drawn up a close frame and given it to
      curl_easy_send if it found a session, and only then. It waits at most 20 times. */
  lemma CloseSendsItsFrame(run: seq<State>, i: nat, t: Tid)
    requires IsRun(run) && i < |run| && t < |run[i].pcs|
    requires var pc := run[i].pcs[t]; pc.Open? || (pc.Close? && !pc.c.LifecycleLock? && !pc.c.Exchange?)
    ensures var m := Passed(run, i, t);
      (SessionFound in m <==> CloseSending in m) && (SessionFound in m <==> CloseMasked in m)
    ensures var pc := run[i].pcs[t]; pc.Close? && pc.c.AwaitAck? ==> pc.c.i <= 20
  {
    RunRecords(run, i, t);
  }

  /** An `open` that sets its flags has been through curl_easy_perform, has given the
      upgrade request to curl_easy_send and has read an answer. */
  lemma OpenShakesHands(run: seq<State>, i: nat, t: Tid)
    requires IsRun(run) && i < |run| && t < |run[i].pcs|
    requires var pc := run[i].pcs[t]; pc.Open? && (pc.o.SetRunning? || pc.o.SetConnected? || pc.o.Spawn?)
    ensures {Performing, UpgradeSending, AnswerReading} <= Passed(run, i, t)
  {
    RunRecords(run, i, t);
  }

  /** A worker that ends because a receive failed while m_running was true has called the
      error callback first. */
  lemma FailureIsReported(run: seq<State>, i: nat)
    requires IsRun(run) && i < |run| && 0 < |run[i].pcs|
    requires var w := run[i].pcs[0]; w == Work(ClearConnected) || w == Work(ClearRunning) || w == Work(NotifyClose)
    ensures FailedRunning in Passed(run, i, 0) ==> ErrorReported in Passed(run, i, 0)
  {
    RunRecords(run, i, 0);
  }

  predicate Checking(pc: Pc) { pc.Write? && pc.w.CheckConnected? }

  /** Since the thread called `send`, it has found m_connected true. */
  ghost predicate FoundUp(run: seq<State>, i: nat, t: Tid)
    requires i < |run|
  {
    && i > 0 && t < |run[i].pcs| && t < |run[i - 1].pcs| && !Checking(run[i].pcs[t])
    && ((Checking(run[i - 1].pcs[t]) && run[i - 1].connected) || FoundUp(run, i - 1, t))
  }

  predicate SendUnderWay(pc: Pc) {
    && pc.Write? && (pc.why.ForSend? || pc.why.ForCallback? || pc.why.ForErrorCallback?) && !pc.w.CheckConnected?
  }

  lemma EdgeSends(p: Pc, q: Pc, connected: bool, running: bool, handle: bool)
    requires Edge(p, q, connected, running, handle) && SendUnderWay(q)
    ensures SendUnderWay(p) || (Checking(p) && connected)
  {
  }

  /** A step of somebody, as it looks to one thread. */
  predicate Seen(s: State, r: State, t: Tid) {
    && t < |s.pcs| && t < |r.pcs|
    && var p, q := s.pcs[t], r.pcs[t];
       || p == q || Edge(p, q, s.connected, s.running, s.handle.Some?)
       || (t == 0 && p.Work? && p != Work(ReceiveFailed) && (q == Work(NoWorker) || q == Work(Loop)))
  }

  lemma SeenByThread(run: seq<State>, i: nat, t: Tid)
    requires IsRun(run) && 0 < i < |run| && t < |run[i].pcs|
    ensures Seen(run[i - 1], run[i], t)
  {
    var u := Mover(run, i);
    SameThreads(run, i);
    var s := run[i - 1];
    if u == t {
      if s.pcs[t] == Open(Spawn) {
        SpawnFindsNoWorker(s, t);
      }
      StepGoes(s, t, run[i]);
    } else {
      OthersStay(s, u, run[i], t);
    }
  }

  lemma StartIsIdle(run: seq<State>, t: Tid)
    requires IsRun(run) && t < |run[0].pcs|
    ensures run[0].pcs[t] == Idle || run[0].pcs[t] == Work(NoWorker)
  {
  }

  lemma SeenSends(s: State, r: State, t: Tid)
    requires Seen(s, r, t) && SendUnderWay(r.pcs[t])
    ensures SendUnderWay(s.pcs[t]) || (Checking(s.pcs[t]) && s.connected)
  {
    if s.pcs[t] != r.pcs[t] {
      EdgeSends(s.pcs[t], r.pcs[t], s.connected, s.running, s.handle.Some?);
    }
  }

  lemma SendCameFrom(run: seq<State>, i: nat, t: Tid)
    requires IsRun(run) && 0 < i < |run| && t < |run[i].pcs| && SendUnderWay(run[i].pcs[t])
    ensures t < |run[i - 1].pcs|
    ensures SendUnderWay(run[i - 1].pcs[t]) || (Checking(run[i - 1].pcs[t]) && run[i - 1].connected)
  {
    SeenByThread(run, i, t);
    SeenSends(run[i - 1], run[i], t);
  }

  lemma NoSendAtStart(run: seq<State>, t: Tid)
    requires IsRun(run) && t < |run[0].pcs|
    ensures !SendUnderWay(run[0].pcs[t])
  {
    StartIsIdle(run, t);
  }

  lemma {:induction false} UpBefore(run: seq<State>, i: nat, t: Tid)
    requires IsRun(run) && 0 < i < |run| && t < |run[i - 1].pcs| && SendUnderWay(run[i - 1].pcs[t])
    ensures FoundUp(run, i - 1, t)
    decreases i, 0
  {
    SendsOnlyWhenUp(run, i - 1, t);
  }

  /** A `send`, from any thread or callback, writes only after it has found m_connected
      true. */
  lemma {:induction false} SendsOnlyWhenUp(run: seq<State>, i: nat, t: Tid)
    requires IsRun(run) && i < |run| && t < |run[i].pcs| && SendUnderWay(run[i].pcs[t])
    ensures FoundUp(run, i, t)
    decreases i, 1
  {
    if i == 0 {
      NoSendAtStart(run, t);
    } else {
      SendCameFrom(run, i, t);
      if SendUnderWay(run[i - 1].pcs[t]) {
        UpBefore(run, i, t);
      }
    }
  }

  predicate Waiting(s: State, t: Tid) { t < |s.pcs| && s.pcs[t].Close? && s.pcs[t].c.AwaitAck? }

  lemma EdgeWaits(p: Pc, q: Pc, connected: bool, running: bool, handle: bool)
    requires Edge(p, q, connected, running, handle) && p.Close? && p.c.AwaitAck? && p.c.i <= 20
    requires !(q.Close? && q.c.AwaitAck?)
    ensures !running || p.c.i == 20
  {
  }

  lemma ReachableWait(s: State, t: Tid)
    requires Reachable(s) && Waiting(s, t)
    ensures s.pcs[t].c.i <= 20
  {
    var run :| IsRun(run) && run[|run| - 1] == s;
    RunRecords(run, |run| - 1, t);
  }

  /** In every state a run reaches: closeLocked stops waiting for the peer's close frame
      only when m_running is false or after 20 waits. */
  lemma WaitsForPeer(s: State, t: Tid, r: State)
    requires Reachable(s) && Waiting(s, t) && Step(s, t, r) && t < |r.pcs| && !Waiting(r, t)
    ensures !s.running || s.pcs[t].c.i == 20
  {
    ReachableWait(s, t);
    StepGoes(s, t, r);
    EdgeWaits(s.pcs[t], r.pcs[t], s.connected, s.running, s.handle.Some?);
  }

  // ---- Counting close frames

  /** A thread takes m_connected from true to false in closeLocked. */
  predicate Finds(s: State, r: State, t: Tid) {
    t < |s.pcs| && t < |r.pcs| && AtExchange(s.pcs[t]) && r.pcs[t] != s.pcs[t] && s.connected
  }

  /** A thread begins to write a close frame. */
  predicate Begins(s: State, r: State, t: Tid) {
    t < |s.pcs| && t < |r.pcs| && AtCloseFrame(r.pcs[t]) && !AtCloseFrame(s.pcs[t])
  }

  ghost predicate SomeFinds(s: State, r: State) { exists t: Tid :: Finds(s, r, t) }

  ghost predicate SomeBegins(s: State, r: State) { exists t: Tid :: Begins(s, r, t) }

  /** Exchanges that found m_connected true, in the first i steps. */
  ghost function Found(run: seq<State>, i: nat): (n: nat)
    requires i < |run|
  {
    if i == 0 then 0 else Found(run, i - 1) + if SomeFinds(run[i - 1], run[i]) then 1 else 0
  }

  /** Close frames begun. */
  ghost function Begun(run: seq<State>, i: nat): (n: nat)
    requires i < |run|
  {
    if i == 0 then 0 else Begun(run, i - 1) + if SomeBegins(run[i - 1], run[i]) then 1 else 0
  }

  /** Close frames begun since m_connected became true. */
  ghost function BegunSince(run: seq<State>, i: nat): (n: nat)
    requires i < |run|
  {
    if i == 0 || (run[i].connected && !run[i - 1].connected) then 0
    else BegunSince(run, i - 1) + if SomeBegins(run[i - 1], run[i]) then 1 else 0
  }

  predicate Exchanging(s: State, u: Tid)
    requires u < |s.pcs|
  {
    AtExchange(s.pcs[u]) && s.connected
  }

  lemma OneFinds(s: State, u: Tid, r: State)
    requires Inv(s) && u < |s.pcs| && (Step(s, u, r) || Call(s, u, r)) && Effect(s, u, r)
    ensures SomeFinds(s, r) <==> Exchanging(s, u)
    ensures SomeBegins(s, r) <==> Exchanging(s, u)
  {
    OwnFinds(s, u, r);
    forall t: Tid | t != u ensures !Finds(s, r, t) && !Begins(s, r, t) {
      if t < |s.pcs| {
        OthersStay(s, u, r, t);
      }
    }
  }

  lemma OwnFinds(s: State, u: Tid, r: State)
    requires Inv(s) && u < |s.pcs| && u < |r.pcs| && (Step(s, u, r) || Call(s, u, r))
    ensures Finds(s, r, u) <==> Exchanging(s, u)
    ensures Begins(s, r, u) <==> Exchanging(s, u)
  {
    if s.pcs[u] == Open(Spawn) {
      SpawnFindsNoWorker(s, u);
    }
    StepGoes(s, u, r);
    if AtCloseFrame(r.pcs[u]) {
      EdgeToClose(s.pcs[u], r.pcs[u], s.connected, s.running, s.handle.Some?);
    }
  }

  predicate CountedOnce(s: State, u: Tid, r: State)
    requires u < |s.pcs|
  {
    r.attempts == if r.connected && !s.connected then 0 else s.attempts + if Exchanging(s, u) then 1 else 0
  }

  lemma OpenDoneCounts(s: State, u: Tid, r: State)
    requires Inv(s) && u < |s.pcs| && OpenDoneStep(s, u, r)
    ensures CountedOnce(s, u, r)
  {
    assert ThreadLocks(s, u);
  }

  lemma OpenFirstCounts(s: State, u: Tid, r: State)
    requires u < |s.pcs| && (OpenStartStep(s, u, r) || HandleStep(s, u, r) || ConnectStep(s, u, r))
    ensures CountedOnce(s, u, r)
  {
  }

  lemma OpenLastCounts(s: State, u: Tid, r: State)
    requires u < |s.pcs| && (UpgradeStep(s, u, r) || OpenFailStep(s, u, r))
    ensures CountedOnce(s, u, r)
  {
  }

  lemma WriteCounts(s: State, u: Tid, r: State)
    requires u < |s.pcs| && WriteStep(s, u, r)
    ensures CountedOnce(s, u, r)
  {
  }

  lemma CloseCounts(s: State, u: Tid, r: State)
    requires u < |s.pcs| && CloseStep(s, u, r)
    ensures CountedOnce(s, u, r)
  {
  }

  lemma CallCounts(s: State, u: Tid, r: State)
    requires u < |s.pcs| && Call(s, u, r)
    ensures CountedOnce(s, u, r)
  {
  }

  lemma ReceiveCounts(s: State, u: Tid, r: State)
    requires u < |s.pcs| && ReceiveStep(s, u, r)
    ensures CountedOnce(s, u, r)
  {
  }

  lemma WorkerLastCounts(s: State, u: Tid, r: State)
    requires u < |s.pcs| && (ErrorStep(s, u, r) || DispatchStep(s, u, r) || WorkerEndStep(s, u, r))
    ensures CountedOnce(s, u, r)
  {
  }

  lemma OpenCounts(s: State, u: Tid, r: State)
    requires Inv(s) && u < |s.pcs| && OpenStep(s, u, r)
    ensures CountedOnce(s, u, r)
  {
    if OpenDoneStep(s, u, r) {
      OpenDoneCounts(s, u, r);
    } else if UpgradeStep(s, u, r) || OpenFailStep(s, u, r) {
      OpenLastCounts(s, u, r);
    } else {
      OpenFirstCounts(s, u, r);
    }
  }

  lemma WorkerCounts(s: State, u: Tid, r: State)
    requires u < |s.pcs| && WorkerStep(s, u, r)
    ensures CountedOnce(s, u, r)
  {
    if ReceiveStep(s, u, r) {
      ReceiveCounts(s, u, r);
    } else {
      WorkerLastCounts(s, u, r);
    }
  }

  lemma MoveCounts(s: State, u: Tid, r: State)
    requires Inv(s) && u < |s.pcs| && (Step(s, u, r) || Call(s, u, r))
    ensures CountedOnce(s, u, r)
  {
    if OpenStep(s, u, r) {
      OpenCounts(s, u, r);
    } else if WorkerStep(s, u, r) {
      WorkerCounts(s, u, r);
    } else if WriteStep(s, u, r) {
      WriteCounts(s, u, r);
    } else if CloseStep(s, u, r) {
      CloseCounts(s, u, r);
    } else {
      CallCounts(s, u, r);
    }
  }

  lemma StepCounted(run: seq<State>, i: nat)
    requires IsRun(run) && 0 < i < |run|
    ensures SomeFinds(run[i - 1], run[i]) <==> SomeBegins(run[i - 1], run[i])
    ensures run[i].attempts == if run[i].connected && !run[i - 1].connected then 0
                               else run[i - 1].attempts + if SomeBegins(run[i - 1], run[i]) then 1 else 0
  {
    var u := Mover(run, i);
    OneFinds(run[i - 1], u, run[i]);
    MoveCounts(run[i - 1], u, run[i]);
  }

  /** Over every run, as many close frames are begun as exchanges found a session, and
      the attempts of a session are those begun since m_connected became true. */
  lemma {:induction false} CloseFramesCounted(run: seq<State>, i: nat)
    requires IsRun(run) && i < |run|
    ensures Begun(run, i) == Found(run, i) && run[i].attempts == BegunSince(run, i)
    decreases i
  {
    if i > 0 {
      CloseFramesCounted(run, i - 1);
      StepCounted(run, i);
    }
  }

  // ---- Calls that are reached

  /** From the start: thread 1 opens, thread 2 calls `close` and is inside curl_easy_send
      with its close frame. */
  lemma CloseFrameIsReached() returns (s: State)
    ensures Reachable(s) && |s.pcs| == 3 && s.handle.Some? && s.attempts == 1
    ensures s.pcs[2] == Write(Writing(s.handle), ForClose(Return))
  {
    StartReachable(THREE);
    var s1 := Opens(THREE, 1);
    var s2 := Go(s1, 2, Close(LifecycleLock, Return));
    Reach(s1, 2, s2);
    var s3 := Go(s2, 2, Close(Exchange, Return)).(lifecycle := Some(2));
    ReachClose(s2, 2, s3);
    var s4 := Go(s3, 2, Write(MaskLock, ForClose(Return))).(connected := false, attempts := s3.attempts + 1);
    ReachClose(s3, 2, s4);
    s := EntersWrite(s4, 2, ForClose(Return));
  }

  /** From the start: thread 1 opens, the worker receives a ping and is inside
      curl_easy_send with its pong. */
  lemma PongIsReached() returns (s: State)
    ensures Reachable(s) && |s.pcs| == 3 && s.handle.Some? && s.pcs[0] == Write(Writing(s.handle), ForPong)
  {
    StartReachable(THREE);
    var s1 := Opens(THREE, 1);
    var s2 := Receives(s1, Dispatch);
    var s3 := Go(s2, 0, Write(MaskLock, ForPong));
    ReachWorker(s2, s3);
    s := EntersWrite(s3, 0, ForPong);
  }

  /** From the start: thread 1 opens, a receive fails and the worker calls the error
      callback. */
  lemma ErrorIsReached() returns (s: State)
    ensures Reachable(s) && |s.pcs| == 3 && s.running && s.pcs[0] == Work(ReportError)
  {
    StartReachable(THREE);
    var s1 := Opens(THREE, 1);
    var s2 := Receives(s1, ReceiveFailed);
    s := Go(s2, 0, Work(ReportError));
    ReachWorker(s2, s);
  }

  /** From the start: thread 1 opens, the peer's close frame arrives and the loop of the
      worker is told to stop. */
  lemma PeerCloseIsReached() returns (s: State)
    ensures Reachable(s) && |s.pcs| == 3 && s.connected && !s.running && s.pcs[0] == Work(Loop)
  {
    StartReachable(THREE);
    var s1 := Opens(THREE, 1);
    var s2 := Receives(s1, Dispatch);
    s := Go(s2, 0, Work(Loop)).(running := false);
    ReachWorker(s2, s);
  }

  /** From the start: thread 1 opens, and the data callback of the worker is inside
      curl_easy_send with a frame of its own. */
  lemma CallbackSendIsReached() returns (s: State)
    ensures Reachable(s) && |s.pcs| == 3 && s.handle.Some? && s.pcs[0] == Write(Writing(s.handle), ForCallback)
  {
    StartReachable(THREE);
    var s1 := Opens(THREE, 1);
    var s2 := Receives(s1, Dispatch);
    var s3 := Go(s2, 0, Write(CheckConnected, ForCallback));
    ReachWorker(s2, s3);
    var s4 := Go(s3, 0, Write(MaskLock, ForCallback));
    ReachWrite(s3, 0, s4);
    s := EntersWrite(s4, 0, ForCallback);
  }
}
