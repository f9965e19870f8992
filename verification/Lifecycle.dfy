// The transport's life: open, close, send and the worker thread, running at the
// same time (CurlTransport: open, close, closeLocked, teardown, sendCloseFrame,
// tunnelWrite, waitReadable, performWsHandshake, send, dispatchFramedBuffer,
// workerLoop; fallback branch).
//
// Every thread is a program counter; a step is one atomic action of one thread:
// taking a mutex, what happens under it up to a libcurl call, the end of such a
// call, one load or store of an atomic flag. A libcurl call is a counter of its own
// that keeps the pointer it was given, so other threads run while it is in progress.
module Lifecycle {
  import opened Prelude

  type Tid = nat        // 0 is the worker's slot, the others call open/close/send
  type Handle = nat

  datatype After = Return | Reopen       // closeLocked was called by close or by open

  // On whose behalf something is written to the tunnel.
  datatype Purpose = ForSend | ForCallback | ForErrorCallback | ForPong | ForClose(after: After) | ForUpgrade

  // Where a thread is: in the write loop (shared by send, close frame, pong and
  // upgrade request), in waitReadable, in closeLocked (from close or open), further
  // on in open, or in the worker loop.
  datatype Pc =
    | Idle
    | Write(w: WritePc, why: Purpose)
    | Poll(p: PollPc, worker: bool)
    | Close(c: ClosePc, after: After)
    | Open(o: OpenPc)
    | Work(k: WorkPc)

  // arg: the pointer a libcurl call in progress was given.
  datatype WritePc = CheckConnected | MaskLock | MaskHeld | WriteLock | WriteHeld | Writing(arg: Option<Handle>)

  datatype PollPc = PollLock | PollHeld | Polling(arg: Option<Handle>)

  datatype ClosePc =
    | LifecycleLock | Exchange | AwaitAck(i: nat) | StopWorker | Join
    | TearLock | TearHeld | Tearing(arg: Option<Handle>) | Closed

  datatype OpenPc =
    | Parse | Init | SetLock(made: Handle) | SetHeld(made: Handle)
    | Configure | Options(arg: Option<Handle>) | Perform(arg: Option<Handle>)
    | ReadLock | Reading(arg: Option<Handle>)
    | FailLock | FailHeld | Failing(arg: Option<Handle>)
    | SetRunning | SetConnected | Spawn | Leave

  datatype WorkPc =
    | NoWorker | Loop | RecvLock | RecvHeld | Receiving(arg: Option<Handle>) | Dispatch
    | ReceiveFailed | ReportError | ClearConnected | ClearRunning | NotifyClose | Ended

  datatype State = State(
    lifecycle: Option<Tid>,    // owner of m_lifecycleMutex
    curl: Option<Tid>,         // owner of m_curlMutex
    handle: Option<Handle>,    // m_curl
    live: set<Handle>,         // created by curl_easy_init, not yet cleaned up
    running: bool,
    connected: bool,
    joinable: bool,            // m_workerThread holds a thread
    pcs: seq<Pc>,
    sessions: nat,             // opens that returned true
    notified: nat,             // calls of onClose
    attempts: nat)             // close frames attempted in this session

  function Go(s: State, t: Tid, pc: Pc): (r: State)
    requires t < |s.pcs|
  {
    s.(pcs := s.pcs[t := pc])
  }

  function Take(s: State, t: Tid, pc: Pc): (r: State)
    requires t < |s.pcs|
  {
    Go(s, t, pc).(curl := Some(t))
  }

  function Drop(s: State, t: Tid, pc: Pc): (r: State)
    requires t < |s.pcs|
  {
    Go(s, t, pc).(curl := None)
  }

  // ---- Steps

  function HandleSet(h: Option<Handle>): (r: set<Handle>) { if h.Some? then {h.value} else {} }

  /** Where a write that returned `ok` continues. */
  function Written(why: Purpose, ok: bool): (pc: Pc) {
    match why
    case ForSend => Idle
    case ForCallback => Work(Dispatch)
    case ForErrorCallback => Work(ReportError)
    case ForPong => Work(Dispatch)
    case ForClose(after) => Close(AwaitAck(0), after)
    case ForUpgrade => if ok then Poll(PollLock, false) else Open(FailLock)
  }

  ghost predicate MaskStep(s: State, t: Tid, r: State)
    requires t < |s.pcs|
  {
    match s.pcs[t]
    case Write(CheckConnected, why) =>
      r == Go(s, t, if s.connected then Write(MaskLock, why) else Written(why, false))
    case Write(MaskLock, why) => s.curl.None? && r == Take(s, t, Write(MaskHeld, why))
    case Write(MaskHeld, why) =>
      // Only sendCloseFrame looks at m_curl here.
      r == Drop(s, t, if why.ForClose? && s.handle.None? then Close(AwaitAck(0), why.after) else Write(WriteLock, why))
    case _ => false
  }

  ghost predicate SendStep(s: State, t: Tid, r: State)
    requires t < |s.pcs|
  {
    match s.pcs[t]
    case Write(WriteLock, why) => s.curl.None? && r == Take(s, t, Write(WriteHeld, why))
    case Write(WriteHeld, why) =>
      if s.handle.None? then r == Drop(s, t, Written(why, false)) else r == Go(s, t, Write(Writing(s.handle), why))
    case Write(Writing(_), why) =>
      || r == Drop(s, t, Write(WriteLock, why))
      || r == Drop(s, t, Written(why, true)) || r == Drop(s, t, Written(why, false))
    case _ => false
  }

  ghost predicate PollStep(s: State, t: Tid, r: State)
    requires t < |s.pcs|
  {
    match s.pcs[t]
    case Poll(PollLock, w) => s.curl.None? && r == Take(s, t, Poll(PollHeld, w))
    case Poll(PollHeld, w) =>
      if s.handle.None? then r == Drop(s, t, if w then Work(RecvLock) else Open(ReadLock))
      else r == Go(s, t, Poll(Polling(s.handle), w))
    case Poll(Polling(_), w) => r == Drop(s, t, if w then Work(RecvLock) else Open(ReadLock))
    case _ => false
  }

  ghost predicate CloseStartStep(s: State, t: Tid, r: State)
    requires t < |s.pcs|
  {
    match s.pcs[t]
    case Close(LifecycleLock, after) =>
      s.lifecycle.None? && r == Go(s, t, Close(Exchange, after)).(lifecycle := Some(t))
    case Close(Exchange, after) =>
      if s.connected then
        r == Go(s, t, Write(MaskLock, ForClose(after))).(connected := false, attempts := s.attempts + 1)
      else r == Go(s, t, Close(StopWorker, after))
    case Close(StopWorker, after) => r == Go(s, t, Close(Join, after)).(running := false)
    case _ => false
  }

  ghost predicate WaitStep(s: State, t: Tid, r: State)
    requires t < |s.pcs|
  {
    match s.pcs[t]
    case Close(AwaitAck(i), after) =>
      r == Go(s, t, if i < 20 && s.running then Close(AwaitAck(i + 1), after) else Close(StopWorker, after))
    case Close(TearLock, after) => s.curl.None? && r == Take(s, t, Close(TearHeld, after))
    case _ => false
  }

  ghost predicate JoinStep(s: State, t: Tid, r: State)
    requires t < |s.pcs|
  {
    match s.pcs[t]
    case Close(Join, after) =>
      if !s.joinable then r == Go(s, t, Close(TearLock, after))
      else 0 < t && s.pcs[0] == Work(Ended)
           && r == s.(joinable := false, pcs := s.pcs[t := Close(TearLock, after)][0 := Work(NoWorker)])
    case _ => false
  }

  ghost predicate TeardownStep(s: State, t: Tid, r: State)
    requires t < |s.pcs|
  {
    match s.pcs[t]
    case Close(TearHeld, after) =>
      if s.handle.None? then r == Drop(s, t, Close(Closed, after)) else r == Go(s, t, Close(Tearing(s.handle), after))
    case Close(Tearing(arg), after) =>
      r == Drop(s, t, Close(Closed, after)).(handle := None, live := s.live - HandleSet(arg))
    case Close(Closed, after) =>
      if after.Reopen? then r == Go(s, t, Open(Parse)) else r == Go(s, t, Idle).(lifecycle := None)
    case _ => false
  }

  ghost predicate OpenStartStep(s: State, t: Tid, r: State)
    requires t < |s.pcs|
  {
    match s.pcs[t]
    case Open(Parse) => r == Go(s, t, Open(Leave)) || r == Go(s, t, Open(Init))
    case Open(Leave) => r == Go(s, t, Idle).(lifecycle := None)
    case _ => false
  }

  ghost predicate HandleStep(s: State, t: Tid, r: State)
    requires t < |s.pcs|
  {
    match s.pcs[t]
    case Open(Init) =>
      || r == Go(s, t, Open(Leave))
      || exists h: Handle :: h !in s.live && r == Go(s, t, Open(SetLock(h))).(live := s.live + {h})
    case Open(SetLock(h)) => s.curl.None? && r == Take(s, t, Open(SetHeld(h)))
    case Open(SetHeld(h)) => r == Drop(s, t, Open(Configure)).(handle := Some(h))
    case _ => false
  }

  ghost predicate ConnectStep(s: State, t: Tid, r: State)
    requires t < |s.pcs|
  {
    match s.pcs[t]
    case Open(Configure) => r == Go(s, t, Open(Options(s.handle)))
    case Open(Options(_)) => r == Go(s, t, Open(Perform(s.handle)))
    case Open(Perform(_)) => r == Go(s, t, Open(FailLock)) || r == Go(s, t, Write(WriteLock, ForUpgrade))
    case _ => false
  }

  ghost predicate UpgradeStep(s: State, t: Tid, r: State)
    requires t < |s.pcs|
  {
    match s.pcs[t]
    case Open(ReadLock) => s.curl.None? && r == Take(s, t, Open(Reading(s.handle)))
    case Open(Reading(_)) =>
      r == Drop(s, t, Poll(PollLock, false)) || r == Drop(s, t, Open(FailLock)) || r == Drop(s, t, Open(SetRunning))
    case Open(FailLock) => s.curl.None? && r == Take(s, t, Open(FailHeld))
    case _ => false
  }

  ghost predicate OpenFailStep(s: State, t: Tid, r: State)
    requires t < |s.pcs|
  {
    match s.pcs[t]
    case Open(FailHeld) =>
      if s.handle.None? then r == Drop(s, t, Open(Leave)) else r == Go(s, t, Open(Failing(s.handle)))
    case Open(Failing(arg)) => r == Drop(s, t, Open(Leave)).(handle := None, live := s.live - HandleSet(arg))
    case _ => false
  }

  ghost predicate OpenDoneStep(s: State, t: Tid, r: State)
    requires t < |s.pcs|
  {
    match s.pcs[t]
    case Open(SetRunning) => r == Go(s, t, Open(SetConnected)).(running := true)
    case Open(SetConnected) => r == Go(s, t, Open(Spawn)).(connected := true, attempts := 0)
    case Open(Spawn) =>
      r == s.(joinable := true, pcs := s.pcs[t := Open(Leave)][0 := Work(Loop)], sessions := s.sessions + 1)
    case _ => false
  }

  ghost predicate ReceiveStep(s: State, t: Tid, r: State)
    requires t < |s.pcs|
  {
    match s.pcs[t]
    case Work(Loop) => r == Go(s, t, if s.running then Poll(PollLock, true) else Work(ClearConnected))
    case Work(RecvLock) => s.curl.None? && r == Take(s, t, Work(RecvHeld))
    case Work(RecvHeld) =>
      if s.handle.None? then r == Drop(s, t, Work(ClearConnected)) else r == Go(s, t, Work(Receiving(s.handle)))
    case Work(Receiving(_)) =>
      // AGAIN, nothing received, an error, or some bytes.
      || r == Drop(s, t, Work(Loop)) || r == Drop(s, t, Work(ClearConnected))
      || r == Drop(s, t, Work(ReceiveFailed)) || r == Drop(s, t, Work(Dispatch))
    case _ => false
  }

  ghost predicate ErrorStep(s: State, t: Tid, r: State)
    requires t < |s.pcs|
  {
    match s.pcs[t]
    case Work(ReceiveFailed) => r == Go(s, t, Work(if s.running then ReportError else ClearConnected))
    // The error callback may send, and returns.
    case Work(ReportError) =>
      r == Go(s, t, Write(CheckConnected, ForErrorCallback)) || r == Go(s, t, Work(ClearConnected))
    case _ => false
  }

  ghost predicate DispatchStep(s: State, t: Tid, r: State)
    requires t < |s.pcs|
  {
    // The buffer is used up, or a close frame, a ping, or a callback that sends.
    && s.pcs[t] == Work(Dispatch)
    && (|| r == Go(s, t, Work(Loop))
        || r == Go(s, t, Work(Loop)).(running := false)
        || r == Go(s, t, Write(MaskLock, ForPong))
        || r == Go(s, t, Write(CheckConnected, ForCallback)))
  }

  ghost predicate WorkerEndStep(s: State, t: Tid, r: State)
    requires t < |s.pcs|
  {
    match s.pcs[t]
    case Work(ClearConnected) => r == Go(s, t, Work(ClearRunning)).(connected := false)
    case Work(ClearRunning) => r == Go(s, t, Work(NotifyClose)).(running := false)
    case Work(NotifyClose) => r == Go(s, t, Work(Ended)).(notified := s.notified + 1)
    case _ => false
  }

  ghost predicate WriteStep(s: State, t: Tid, r: State)
    requires t < |s.pcs|
  {
    MaskStep(s, t, r) || SendStep(s, t, r) || PollStep(s, t, r)
  }

  ghost predicate CloseStep(s: State, t: Tid, r: State)
    requires t < |s.pcs|
  {
    CloseStartStep(s, t, r) || WaitStep(s, t, r) || JoinStep(s, t, r) || TeardownStep(s, t, r)
  }

  ghost predicate OpenStep(s: State, t: Tid, r: State)
    requires t < |s.pcs|
  {
    || OpenStartStep(s, t, r) || HandleStep(s, t, r) || ConnectStep(s, t, r)
    || UpgradeStep(s, t, r) || OpenFailStep(s, t, r) || OpenDoneStep(s, t, r)
  }

  ghost predicate WorkerStep(s: State, t: Tid, r: State)
    requires t < |s.pcs|
  {
    ReceiveStep(s, t, r) || ErrorStep(s, t, r) || DispatchStep(s, t, r) || WorkerEndStep(s, t, r)
  }

  /** A step of a call in progress or of the worker. */
  ghost predicate Step(s: State, t: Tid, r: State)
    requires t < |s.pcs|
  {
    WriteStep(s, t, r) || CloseStep(s, t, r) || OpenStep(s, t, r) || WorkerStep(s, t, r)
  }

  /** An idle thread calls open, close or send. */
  ghost predicate Call(s: State, t: Tid, r: State)
    requires t < |s.pcs|
  {
    && s.pcs[t] == Idle
    && (|| r == Go(s, t, Close(LifecycleLock, Reopen))
        || r == Go(s, t, Close(LifecycleLock, Return))
        || r == Go(s, t, Write(CheckConnected, ForSend)))
  }

  ghost predicate Next(s: State, r: State) {
    exists t :: 0 <= t < |s.pcs| && (Step(s, t, r) || Call(s, t, r))
  }

  ghost predicate Start(s: State) {
    && |s.pcs| >= 1 && s.pcs[0] == Work(NoWorker) && (forall t :: 0 < t < |s.pcs| ==> s.pcs[t] == Idle)
    && s.lifecycle == None && s.curl == None && s.handle == None && s.live == {}
    && !s.running && !s.connected && !s.joinable && s.sessions == 0 && s.notified == 0 && s.attempts == 0
  }

  ghost predicate IsRun(run: seq<State>) {
    run != [] && Start(run[0]) && forall i :: 0 <= i < |run| - 1 ==> Next(run[i], run[i + 1])
  }

  // ---- What a program counter says

  predicate WantsCurl(pc: Pc) {
    match pc
    case Write(w, _) => w.MaskLock? || w.WriteLock?
    case Poll(p, _) => p.PollLock?
    case Close(c, _) => c.TearLock?
    case Open(o) => o.SetLock? || o.ReadLock? || o.FailLock?
    case Work(k) => k.RecvLock?
    case Idle => false
  }

  predicate WantsLifecycle(pc: Pc) { pc.Close? && pc.c.LifecycleLock? }

  // How far the owner of m_lifecycleMutex has come.
  datatype Phase = Outside | Entered | Disconnected | Stopped | Joined | Empty | Ready | Running | Connected | Leaving

  function PurposePhase(why: Purpose): (p: Phase) {
    if why.ForClose? then Disconnected else if why.ForUpgrade? then Ready else Outside
  }

  function ClosePhase(c: ClosePc): (p: Phase) {
    match c
    case LifecycleLock => Outside
    case Exchange => Entered
    case AwaitAck(_) => Disconnected
    case StopWorker => Disconnected
    case Join => Stopped
    case Closed => Empty
    case _ => Joined
  }

  function OpenPhase(o: OpenPc): (p: Phase) {
    if o.Parse? || o.Init? || o.SetLock? || o.SetHeld? then Empty
    else if o.SetConnected? then Running
    else if o.Spawn? then Connected
    else if o.Leave? then Leaving
    else Ready
  }

  function OpenCall(o: OpenPc): (c: Option<Option<Handle>>) {
    if o.Options? || o.Perform? || o.Reading? || o.Failing? then Some(o.arg) else None
  }

  predicate WorkerPurpose(why: Purpose) { why.ForCallback? || why.ForErrorCallback? || why.ForPong? }

  // Whether m_curlMutex is held, the phase, the pointer that a libcurl call in
  // progress was given, and whether the place is one of the worker's.
  datatype Info = Info(curl: bool, phase: Phase, call: Option<Option<Handle>>, worker: bool)

  function About(pc: Pc): (i: Info) {
    match pc
    case Idle => Info(false, Outside, None, false)
    case Write(w, why) =>
      Info(w.MaskHeld? || w.WriteHeld? || w.Writing?, PurposePhase(why),
           if w.Writing? then Some(w.arg) else None, WorkerPurpose(why))
    case Poll(p, worker) =>
      Info(p.PollHeld? || p.Polling?, if worker then Outside else Ready,
           if p.Polling? then Some(p.arg) else None, worker)
    case Close(c, _) =>
      Info(c.TearHeld? || c.Tearing?, ClosePhase(c), if c.Tearing? then Some(c.arg) else None, false)
    case Open(o) =>
      Info(o.SetHeld? || o.Reading? || o.FailHeld? || o.Failing?, OpenPhase(o), OpenCall(o), false)
    case Work(k) =>
      Info(k.RecvHeld? || k.Receiving?, Outside, if k.Receiving? then Some(k.arg) else None, true)
  }

  predicate HoldsCurl(pc: Pc) { About(pc).curl }

  function PhaseOf(pc: Pc): (p: Phase) { About(pc).phase }

  predicate HoldsLifecycle(pc: Pc) { About(pc).phase != Outside }

  function CallOf(pc: Pc): (c: Option<Option<Handle>>) { About(pc).call }

  predicate IsWorkerPc(pc: Pc) { About(pc).worker }

  predicate Quiescent(pc: Pc) { pc.Idle? || pc == Work(NoWorker) || pc == Work(Ended) }

  // ---- The invariant

  ghost predicate Locks(s: State) {
    && |s.pcs| >= 1
    && (s.curl.Some? ==> s.curl.value < |s.pcs|) && (s.lifecycle.Some? ==> s.lifecycle.value < |s.pcs|)
    && (forall t :: 0 <= t < |s.pcs| ==> ThreadLocks(s, t))
  }

  predicate ThreadLocks(s: State, t: Tid)
    requires t < |s.pcs|
  {
    && (HoldsCurl(s.pcs[t]) <==> s.curl == Some(t))
    && (HoldsLifecycle(s.pcs[t]) <==> s.lifecycle == Some(t))
    && (t == 0 <==> IsWorkerPc(s.pcs[t]))
  }

  /** Every call in progress was given the present handle. */
  predicate CallOk(s: State, pc: Pc) {
    CallOf(pc).Some? ==> s.handle.Some? && CallOf(pc).value == s.handle
  }

  ghost predicate Calls(s: State) {
    forall t :: 0 <= t < |s.pcs| ==> CallOk(s, s.pcs[t])
  }

  function OwnerPc(s: State): (pc: Pc) {
    if s.lifecycle.Some? && s.lifecycle.value < |s.pcs| then s.pcs[s.lifecycle.value] else Idle
  }

  predicate AtRest(s: State) {
    (s.joinable <==> s.handle.Some?) && (!s.joinable ==> !s.running && !s.connected)
  }

  predicate PhaseOk(s: State, p: Phase) {
    match p
    case Outside => AtRest(s)
    case Entered => AtRest(s)
    case Leaving => AtRest(s)
    case Disconnected => AtRest(s) && !s.connected
    case Stopped => AtRest(s) && !s.connected && !s.running
    case Joined => !s.joinable && !s.connected && !s.running
    case Empty => !s.joinable && !s.connected && !s.running && s.handle.None?
    case Ready => !s.joinable && !s.connected && !s.running && s.handle.Some?
    case Running => !s.joinable && !s.connected && s.running && s.handle.Some?
    case Connected => !s.joinable && s.connected && s.running && s.handle.Some?
  }

  predicate WorkerOk(s: State)
    requires |s.pcs| >= 1
  {
    var w := s.pcs[0];
    && (s.joinable <==> w != Work(NoWorker))
    && (w == Work(ClearRunning) || w == Work(NotifyClose) || w == Work(Ended) ==> !s.connected)
    && (w == Work(NotifyClose) || w == Work(Ended) ==> !s.running)
    && s.sessions == s.notified + (if w == Work(NoWorker) || w == Work(Ended) then 0 else 1)
    && s.attempts <= 1 && (s.connected ==> s.attempts == 0)
  }

  function Made(pc: Pc): (r: set<Handle>) {
    if pc.Open? && (pc.o.SetLock? || pc.o.SetHeld?) then {pc.o.made} else {}
  }

  /** What holds while the owner of m_lifecycleMutex is at `pc`. Between open and
      close the created handles are exactly m_curl and the one open is about to
      store there: none leaks. */
  ghost predicate Session(s: State, pc: Pc) {
    && PhaseOk(s, PhaseOf(pc))
    && s.live == HandleSet(s.handle) + Made(pc)
    && HandleSet(s.handle) !! Made(pc)
  }

  ghost predicate Inv(s: State) {
    Locks(s) && Calls(s) && WorkerOk(s) && Session(s, OwnerPc(s))
  }

  // ---- What a step does to the mutexes

  predicate MutexEffect(before: Option<Tid>, after: Option<Tid>, t: Tid, had: bool, has: bool) {
    if had == has then after == before else if has then before.None? && after == Some(t) else after == None
  }

  predicate SlotEffect(s: State, t: Tid, r: State)
    requires t < |s.pcs| == |r.pcs|
  {
    || r.pcs[0] == s.pcs[0]
    || (s.pcs[t].Close? && s.pcs[t].c.Join? && s.pcs[0] == Work(Ended) && r.pcs[0] == Work(NoWorker))
    || (s.pcs[t] == Open(Spawn) && r.pcs[0] == Work(Loop))
  }

  ghost predicate Effect(s: State, t: Tid, r: State)
    requires t < |s.pcs|
  {
    && |r.pcs| == |s.pcs|
    && (forall u :: 0 < u < |s.pcs| && u != t ==> r.pcs[u] == s.pcs[u])
    && (t == 0 || SlotEffect(s, t, r))
    && MutexEffect(s.curl, r.curl, t, HoldsCurl(s.pcs[t]), HoldsCurl(r.pcs[t]))
    && MutexEffect(s.lifecycle, r.lifecycle, t, HoldsLifecycle(s.pcs[t]), HoldsLifecycle(r.pcs[t]))
    && IsWorkerPc(r.pcs[t]) == IsWorkerPc(s.pcs[t])
    && (r.handle != s.handle ==> HoldsCurl(s.pcs[t]) && HoldsLifecycle(s.pcs[t]))
    && CallOk(r, r.pcs[t])
  }

  /** A step of a thread that does not own m_lifecycleMutex can only lower flags of
      a session that has a worker. */
  predicate Lowered(s: State, r: State) {
    && r.handle == s.handle && r.live == s.live && r.joinable == s.joinable
    && (r.running ==> s.running) && (r.connected ==> s.connected)
    && (!s.joinable ==> r.running == s.running && r.connected == s.connected)
  }

  ghost predicate Outcome(s: State, t: Tid, r: State)
    requires t < |s.pcs| && t < |r.pcs|
  {
    && |r.pcs| >= 1 && WorkerOk(r)
    && (HoldsLifecycle(r.pcs[t]) ==> Session(r, r.pcs[t]))
    && (!HoldsLifecycle(r.pcs[t]) && HoldsLifecycle(s.pcs[t]) ==> Session(r, Idle))
    && (!HoldsLifecycle(r.pcs[t]) && !HoldsLifecycle(s.pcs[t]) ==> Lowered(s, r))
  }

  // What a step of t may rely on.
  ghost predicate Local(s: State, t: Tid)
    requires t < |s.pcs|
  {
    && |s.pcs| >= 1 && WorkerOk(s) && CallOk(s, s.pcs[t])
    && (t == 0 <==> IsWorkerPc(s.pcs[t]))
    && (HoldsLifecycle(s.pcs[t]) ==> Session(s, s.pcs[t]))
    && (s.lifecycle.None? ==> Session(s, Idle))
  }

  lemma LocalFromInv(s: State, t: Tid)
    requires Inv(s) && t < |s.pcs|
    ensures Local(s, t)
  {
    assert ThreadLocks(s, t) && CallOk(s, s.pcs[t]);
  }

  // Most steps move only the thread's counter and m_curlMutex.
  ghost predicate Quiet(s: State, t: Tid, r: State)
    requires t < |s.pcs|
  {
    && t < |r.pcs| && r == s.(pcs := s.pcs[t := r.pcs[t]], curl := r.curl)
    && PhaseOf(r.pcs[t]) == PhaseOf(s.pcs[t]) && Made(r.pcs[t]) == Made(s.pcs[t])
    && !Boundary(s.pcs[t]) && !Boundary(r.pcs[t])
    && MutexEffect(s.curl, r.curl, t, HoldsCurl(s.pcs[t]), HoldsCurl(r.pcs[t]))
    && IsWorkerPc(r.pcs[t]) == IsWorkerPc(s.pcs[t])
    && CallOk(r, r.pcs[t])
  }

  predicate Boundary(pc: Pc) {
    pc.Work? && (pc.k.NoWorker? || pc.k.ClearRunning? || pc.k.NotifyClose? || pc.k.Ended?)
  }

  lemma QuietIsHarmless(s: State, t: Tid, r: State)
    requires t < |s.pcs| && Local(s, t) && Quiet(s, t, r)
    ensures Effect(s, t, r) && Outcome(s, t, r)
  {
  }

  // Two counters of one thread that differ in nothing but m_curlMutex and the call.
  predicate SamePlace(a: Pc, b: Pc) {
    && PhaseOf(a) == PhaseOf(b) && Made(a) == Made(b) && !Boundary(a) && !Boundary(b) && IsWorkerPc(a) == IsWorkerPc(b)
  }

  lemma TakeQuiet(s: State, t: Tid, pc: Pc)
    requires t < |s.pcs| && SamePlace(s.pcs[t], pc) && s.curl.None?
    requires !HoldsCurl(s.pcs[t]) && HoldsCurl(pc) && CallOf(pc).None?
    ensures Quiet(s, t, Take(s, t, pc))
  {
  }

  lemma DropQuiet(s: State, t: Tid, pc: Pc)
    requires t < |s.pcs| && SamePlace(s.pcs[t], pc) && HoldsCurl(s.pcs[t]) && !HoldsCurl(pc) && CallOf(pc).None?
    ensures Quiet(s, t, Drop(s, t, pc))
  {
  }

  lemma MaskStepQuiet(s: State, t: Tid, r: State)
    requires t < |s.pcs| && MaskStep(s, t, r)
    ensures Quiet(s, t, r)
  {
    var why := s.pcs[t].why;
    if s.pcs[t].w.MaskLock? {
      TakeQuiet(s, t, Write(MaskHeld, why));
    } else if s.pcs[t].w.MaskHeld? {
      DropQuiet(s, t, if why.ForClose? && s.handle.None? then Close(AwaitAck(0), why.after) else Write(WriteLock, why));
    } else {
      WrittenKeepsPlace(why, false);
    }
  }

  lemma WrittenKeepsPlace(why: Purpose, ok: bool)
    ensures About(Written(why, ok)) == Info(false, PurposePhase(why), None, WorkerPurpose(why))
    ensures !Boundary(Written(why, ok)) && Made(Written(why, ok)) == {}
  {
  }

  lemma SendLockQuiet(s: State, t: Tid, r: State)
    requires t < |s.pcs| && SendStep(s, t, r) && !s.pcs[t].w.Writing?
    ensures Quiet(s, t, r)
  {
    WrittenKeepsPlace(s.pcs[t].why, false);
  }

  lemma WrittenQuiet(s: State, t: Tid, r: State, ok: bool)
    requires t < |s.pcs| && s.pcs[t].Write? && s.pcs[t].w.Writing? && r == Drop(s, t, Written(s.pcs[t].why, ok))
    ensures Quiet(s, t, r)
  {
    WrittenKeepsPlace(s.pcs[t].why, ok);
  }

  lemma SendStepQuiet(s: State, t: Tid, r: State)
    requires t < |s.pcs| && SendStep(s, t, r)
    ensures Quiet(s, t, r)
  {
    if !s.pcs[t].w.Writing? {
      SendLockQuiet(s, t, r);
    } else if r == Drop(s, t, Written(s.pcs[t].why, true)) {
      WrittenQuiet(s, t, r, true);
    } else if r == Drop(s, t, Written(s.pcs[t].why, false)) {
      WrittenQuiet(s, t, r, false);
    }
  }

  lemma PollStepQuiet(s: State, t: Tid, r: State)
    requires t < |s.pcs| && PollStep(s, t, r)
    ensures Quiet(s, t, r)
  {
    var worker := s.pcs[t].worker;
    if s.pcs[t].p.PollLock? {
      TakeQuiet(s, t, Poll(PollHeld, worker));
    } else if s.pcs[t].p.Polling? || s.handle.None? {
      DropQuiet(s, t, if worker then Work(RecvLock) else Open(ReadLock));
    }
  }

  lemma CloseStartStepEffect(s: State, t: Tid, r: State)
    requires t < |s.pcs| && Local(s, t) && CloseStartStep(s, t, r)
    ensures Effect(s, t, r)
  {
  }

  lemma CloseStartStepOutcome(s: State, t: Tid, r: State)
    requires t < |s.pcs| && Local(s, t) && CloseStartStep(s, t, r)
    ensures t < |r.pcs| && Outcome(s, t, r)
  {
  }

  lemma WaitStepQuiet(s: State, t: Tid, r: State)
    requires t < |s.pcs| && WaitStep(s, t, r)
    ensures Quiet(s, t, r)
  {
  }

  lemma JoinStepEffect(s: State, t: Tid, r: State)
    requires t < |s.pcs| && Local(s, t) && JoinStep(s, t, r)
    ensures Effect(s, t, r)
  {
  }

  lemma JoinStepOutcome(s: State, t: Tid, r: State)
    requires t < |s.pcs| && Local(s, t) && JoinStep(s, t, r)
    ensures t < |r.pcs| && Outcome(s, t, r)
  {
  }

  lemma TeardownStepEffect(s: State, t: Tid, r: State)
    requires t < |s.pcs| && Local(s, t) && TeardownStep(s, t, r)
    ensures Effect(s, t, r)
  {
  }

  lemma TeardownStepOutcome(s: State, t: Tid, r: State)
    requires t < |s.pcs| && Local(s, t) && TeardownStep(s, t, r)
    ensures t < |r.pcs| && Outcome(s, t, r)
  {
  }

  lemma OpenStartStepEffect(s: State, t: Tid, r: State)
    requires t < |s.pcs| && Local(s, t) && OpenStartStep(s, t, r)
    ensures Effect(s, t, r)
  {
  }

  lemma OpenStartStepOutcome(s: State, t: Tid, r: State)
    requires t < |s.pcs| && Local(s, t) && OpenStartStep(s, t, r)
    ensures t < |r.pcs| && Outcome(s, t, r)
  {
  }

  lemma HandleStepEffect(s: State, t: Tid, r: State)
    requires t < |s.pcs| && Local(s, t) && HandleStep(s, t, r)
    ensures Effect(s, t, r)
  {
  }

  lemma HandleStepOutcome(s: State, t: Tid, r: State)
    requires t < |s.pcs| && Local(s, t) && HandleStep(s, t, r)
    ensures t < |r.pcs| && Outcome(s, t, r)
  {
  }

  lemma ConnectStepQuiet(s: State, t: Tid, r: State)
    requires t < |s.pcs| && ConnectStep(s, t, r) && Local(s, t)
    ensures Quiet(s, t, r)
  {
  }

  lemma UpgradeReadQuiet(s: State, t: Tid, r: State)
    requires t < |s.pcs| && UpgradeStep(s, t, r) && s.pcs[t].o.Reading?
    ensures Quiet(s, t, r)
  {
    DropQuiet(s, t, Poll(PollLock, false));
    DropQuiet(s, t, Open(FailLock));
    DropQuiet(s, t, Open(SetRunning));
  }

  lemma UpgradeStepQuiet(s: State, t: Tid, r: State)
    requires t < |s.pcs| && UpgradeStep(s, t, r) && Local(s, t)
    ensures Quiet(s, t, r)
  {
    if s.pcs[t].o.Reading? {
      UpgradeReadQuiet(s, t, r);
    }
  }

  lemma OpenFailStepEffect(s: State, t: Tid, r: State)
    requires t < |s.pcs| && Local(s, t) && OpenFailStep(s, t, r)
    ensures Effect(s, t, r)
  {
  }

  lemma OpenFailStepOutcome(s: State, t: Tid, r: State)
    requires t < |s.pcs| && Local(s, t) && OpenFailStep(s, t, r)
    ensures t < |r.pcs| && Outcome(s, t, r)
  {
  }

  lemma OpenDoneStepEffect(s: State, t: Tid, r: State)
    requires t < |s.pcs| && Local(s, t) && OpenDoneStep(s, t, r)
    ensures Effect(s, t, r)
  {
  }

  lemma OpenDoneStepOutcome(s: State, t: Tid, r: State)
    requires t < |s.pcs| && Local(s, t) && OpenDoneStep(s, t, r)
    ensures t < |r.pcs| && Outcome(s, t, r)
  {
  }

  lemma ReceivedQuiet(s: State, t: Tid, r: State)
    requires t < |s.pcs| && ReceiveStep(s, t, r) && s.pcs[t].k.Receiving?
    ensures Quiet(s, t, r)
  {
    DropQuiet(s, t, Work(Loop));
    DropQuiet(s, t, Work(ClearConnected));
    DropQuiet(s, t, Work(ReceiveFailed));
    DropQuiet(s, t, Work(Dispatch));
  }

  lemma ReceiveStepQuiet(s: State, t: Tid, r: State)
    requires t < |s.pcs| && ReceiveStep(s, t, r)
    ensures Quiet(s, t, r)
  {
    if s.pcs[t].k.Receiving? {
      ReceivedQuiet(s, t, r);
    }
  }

  lemma ErrorStepQuiet(s: State, t: Tid, r: State)
    requires t < |s.pcs| && ErrorStep(s, t, r)
    ensures Quiet(s, t, r)
  {
  }

  lemma DispatchStepEffect(s: State, t: Tid, r: State)
    requires t < |s.pcs| && Local(s, t) && DispatchStep(s, t, r)
    ensures Effect(s, t, r)
  {
  }

  lemma DispatchStepOutcome(s: State, t: Tid, r: State)
    requires t < |s.pcs| && Local(s, t) && DispatchStep(s, t, r)
    ensures t < |r.pcs| && Outcome(s, t, r)
  {
  }

  lemma WorkerEndStepEffect(s: State, t: Tid, r: State)
    requires t < |s.pcs| && Local(s, t) && WorkerEndStep(s, t, r)
    ensures Effect(s, t, r)
  {
  }

  lemma WorkerEndStepOutcome(s: State, t: Tid, r: State)
    requires t < |s.pcs| && Local(s, t) && WorkerEndStep(s, t, r)
    ensures t < |r.pcs| && Outcome(s, t, r)
  {
  }

  lemma WriteStepSafe(s: State, t: Tid, r: State)
    requires t < |s.pcs| && Local(s, t) && WriteStep(s, t, r)
    ensures Effect(s, t, r) && Outcome(s, t, r)
  {
    if MaskStep(s, t, r) {
      MaskStepQuiet(s, t, r);
      QuietIsHarmless(s, t, r);
    } else if SendStep(s, t, r) {
      SendStepQuiet(s, t, r);
      QuietIsHarmless(s, t, r);
    } else {
      PollStepQuiet(s, t, r);
      QuietIsHarmless(s, t, r);
    }
  }

  lemma CloseStepSafe(s: State, t: Tid, r: State)
    requires t < |s.pcs| && Local(s, t) && CloseStep(s, t, r)
    ensures Effect(s, t, r) && Outcome(s, t, r)
  {
    if CloseStartStep(s, t, r) {
      CloseStartStepEffect(s, t, r);
      CloseStartStepOutcome(s, t, r);
    } else if WaitStep(s, t, r) {
      WaitStepQuiet(s, t, r);
      QuietIsHarmless(s, t, r);
    } else if JoinStep(s, t, r) {
      JoinStepEffect(s, t, r);
      JoinStepOutcome(s, t, r);
    } else {
      TeardownStepEffect(s, t, r);
      TeardownStepOutcome(s, t, r);
    }
  }

  lemma OpenStepSafe(s: State, t: Tid, r: State)
    requires t < |s.pcs| && Local(s, t) && OpenStep(s, t, r)
    ensures Effect(s, t, r) && Outcome(s, t, r)
  {
    if OpenStartStep(s, t, r) {
      OpenStartStepEffect(s, t, r);
      OpenStartStepOutcome(s, t, r);
    } else if HandleStep(s, t, r) {
      HandleStepEffect(s, t, r);
      HandleStepOutcome(s, t, r);
    } else if ConnectStep(s, t, r) {
      ConnectStepQuiet(s, t, r);
      QuietIsHarmless(s, t, r);
    } else if UpgradeStep(s, t, r) {
      UpgradeStepQuiet(s, t, r);
      QuietIsHarmless(s, t, r);
    } else if OpenFailStep(s, t, r) {
      OpenFailStepEffect(s, t, r);
      OpenFailStepOutcome(s, t, r);
    } else {
      OpenDoneStepEffect(s, t, r);
      OpenDoneStepOutcome(s, t, r);
    }
  }

  lemma WorkerStepSafe(s: State, t: Tid, r: State)
    requires t < |s.pcs| && Local(s, t) && WorkerStep(s, t, r)
    ensures Effect(s, t, r) && Outcome(s, t, r)
  {
    if ReceiveStep(s, t, r) {
      ReceiveStepQuiet(s, t, r);
      QuietIsHarmless(s, t, r);
    } else if ErrorStep(s, t, r) {
      ErrorStepQuiet(s, t, r);
      QuietIsHarmless(s, t, r);
    } else if DispatchStep(s, t, r) {
      DispatchStepEffect(s, t, r);
      DispatchStepOutcome(s, t, r);
    } else {
      WorkerEndStepEffect(s, t, r);
      WorkerEndStepOutcome(s, t, r);
    }
  }

  // ---- Every step keeps the invariant

  /** No call of another thread is in progress while one holds both mutexes. */
  lemma AloneWithBothLocks(s: State, t: Tid, u: Tid)
    requires Locks(s) && t < |s.pcs| && u < |s.pcs| && u != t
    requires s.curl == Some(t) && s.lifecycle == Some(t)
    ensures CallOf(s.pcs[u]).None?
  {
    assert ThreadLocks(s, u);
  }

  lemma OtherThread(s: State, t: Tid, r: State, u: Tid)
    requires t < |s.pcs| && u < |s.pcs| && u != t && |r.pcs| == |s.pcs| && r.pcs[u] == s.pcs[u]
    requires ThreadLocks(s, t) && ThreadLocks(s, u)
    requires MutexEffect(s.curl, r.curl, t, HoldsCurl(s.pcs[t]), HoldsCurl(r.pcs[t]))
    requires MutexEffect(s.lifecycle, r.lifecycle, t, HoldsLifecycle(s.pcs[t]), HoldsLifecycle(r.pcs[t]))
    ensures ThreadLocks(r, u)
  {
  }

  lemma SameThread(s: State, t: Tid, r: State)
    requires t < |s.pcs| == |r.pcs|
    requires ThreadLocks(s, t) && IsWorkerPc(r.pcs[t]) == IsWorkerPc(s.pcs[t])
    requires MutexEffect(s.curl, r.curl, t, HoldsCurl(s.pcs[t]), HoldsCurl(r.pcs[t]))
    requires MutexEffect(s.lifecycle, r.lifecycle, t, HoldsLifecycle(s.pcs[t]), HoldsLifecycle(r.pcs[t]))
    ensures ThreadLocks(r, t)
  {
  }

  /** Join and Spawn exchange a worker that holds nothing for one that holds nothing. */
  lemma WorkerSlot(s: State, t: Tid, r: State)
    requires 0 < t < |s.pcs| == |r.pcs|
    requires ThreadLocks(s, t) && ThreadLocks(s, 0)
    requires s.pcs[0] == Work(Ended) || s.pcs[0] == Work(NoWorker)
    requires (r.pcs[0] == Work(NoWorker) || r.pcs[0] == Work(Loop))
    requires MutexEffect(s.curl, r.curl, t, HoldsCurl(s.pcs[t]), HoldsCurl(r.pcs[t]))
    requires MutexEffect(s.lifecycle, r.lifecycle, t, HoldsLifecycle(s.pcs[t]), HoldsLifecycle(r.pcs[t]))
    ensures ThreadLocks(r, 0) && CallOk(r, r.pcs[0])
  {
  }

  lemma EffectKeepsThread(s: State, t: Tid, r: State, u: Tid)
    requires Locks(s) && t < |s.pcs| && Effect(s, t, r) && u < |r.pcs|
    requires s.pcs[t] == Open(Spawn) ==> s.pcs[0] == Work(NoWorker)
    requires t == 0 ==> s.pcs[t] != Open(Spawn)
    ensures ThreadLocks(r, u)
  {
    assert ThreadLocks(s, t) && ThreadLocks(s, u);
    if u == t {
      SameThread(s, t, r);
    } else if u == 0 && r.pcs[0] != s.pcs[0] {
      WorkerSlot(s, t, r);
    } else {
      OtherThread(s, t, r, u);
    }
  }

  lemma EffectKeepsCall(s: State, t: Tid, r: State, u: Tid)
    requires Locks(s) && Calls(s) && t < |s.pcs| && Effect(s, t, r) && u < |r.pcs|
    ensures CallOk(r, r.pcs[u])
  {
    assert CallOk(s, s.pcs[u]) && ThreadLocks(s, t);
    if u != t && r.handle != s.handle {
      AloneWithBothLocks(s, t, u);
    }
  }

  lemma OwnerUnchanged(s: State, t: Tid, r: State)
    requires Locks(s) && t < |s.pcs| && Effect(s, t, r)
    ensures HoldsLifecycle(r.pcs[t]) ==> OwnerPc(r) == r.pcs[t]
    ensures !HoldsLifecycle(r.pcs[t]) && HoldsLifecycle(s.pcs[t]) ==> OwnerPc(r) == Idle
    ensures !HoldsLifecycle(r.pcs[t]) && !HoldsLifecycle(s.pcs[t]) ==> OwnerPc(r) == OwnerPc(s)
  {
    assert ThreadLocks(s, t) && ThreadLocks(s, 0);
  }

  lemma LoweredKeepsSession(s: State, r: State, pc: Pc)
    requires Session(s, pc) && Lowered(s, r)
    ensures Session(r, pc)
  {
  }

  lemma EffectKeepsInv(s: State, t: Tid, r: State)
    requires Inv(s) && t < |s.pcs| && Effect(s, t, r) && Outcome(s, t, r)
    requires s.pcs[t] == Open(Spawn) ==> t != 0 && s.pcs[0] == Work(NoWorker)
    ensures Inv(r)
  {
    forall u | 0 <= u < |r.pcs| ensures ThreadLocks(r, u) && CallOk(r, r.pcs[u]) {
      EffectKeepsThread(s, t, r, u);
      EffectKeepsCall(s, t, r, u);
    }
    OwnerUnchanged(s, t, r);
    if !HoldsLifecycle(r.pcs[t]) && !HoldsLifecycle(s.pcs[t]) {
      LoweredKeepsSession(s, r, OwnerPc(s));
    }
  }

  /** std::thread is assigned only when the slot is empty: at most one worker. */
  lemma SpawnFindsNoWorker(s: State, t: Tid)
    requires Inv(s) && t < |s.pcs| && s.pcs[t] == Open(Spawn)
    ensures t != 0 && s.pcs[0] == Work(NoWorker)
  {
    LocalFromInv(s, t);
  }

  lemma StepKeepsInv(s: State, t: Tid, r: State)
    requires Inv(s) && t < |s.pcs| && Step(s, t, r)
    ensures Inv(r)
  {
    LocalFromInv(s, t);
    if WriteStep(s, t, r) {
      WriteStepSafe(s, t, r);
    } else if CloseStep(s, t, r) {
      CloseStepSafe(s, t, r);
    } else if OpenStep(s, t, r) {
      OpenStepSafe(s, t, r);
    } else {
      WorkerStepSafe(s, t, r);
    }
    if s.pcs[t] == Open(Spawn) {
      SpawnFindsNoWorker(s, t);
    }
    EffectKeepsInv(s, t, r);
  }

  lemma CallIsQuiet(s: State, t: Tid, r: State)
    requires t < |s.pcs| && Local(s, t) && Call(s, t, r)
    ensures Quiet(s, t, r)
  {
  }

  lemma CallKeepsInv(s: State, t: Tid, r: State)
    requires Inv(s) && t < |s.pcs| && Call(s, t, r)
    ensures Inv(r)
  {
    LocalFromInv(s, t);
    CallIsQuiet(s, t, r);
    QuietIsHarmless(s, t, r);
    EffectKeepsInv(s, t, r);
  }

  lemma {:induction false} RunKeepsInv(run: seq<State>, i: nat)
    requires IsRun(run) && i < |run|
    ensures Inv(run[i])
  {
    if i == 0 {
      forall t | 0 <= t < |run[0].pcs| ensures ThreadLocks(run[0], t) {
      }
    } else {
      RunKeepsInv(run, i - 1);
      assert Next(run[i - 1], run[i - 1 + 1]);
      var s, r := run[i - 1], run[i];
      var t :| 0 <= t < |s.pcs| && (Step(s, t, r) || Call(s, t, r));
      if Step(s, t, r) {
        StepKeepsInv(s, t, r);
      } else {
        CallKeepsInv(s, t, r);
      }
    }
  }

  // ---- Handle safety

  /** In every state of every run, each libcurl call in progress works on a handle
      that is not null and not cleaned up, and it is still m_curl. */
  lemma HandleSafety(run: seq<State>, i: nat, t: Tid)
    requires IsRun(run) && i < |run| && t < |run[i].pcs|
    requires CallOf(run[i].pcs[t]).Some?
    ensures var arg := CallOf(run[i].pcs[t]).value;
            arg.Some? && arg.value in run[i].live && arg == run[i].handle
  {
    RunKeepsInv(run, i);
    assert CallOk(run[i], run[i].pcs[t]);
  }

  /** A step that cleans a handle up frees m_curl itself, while no other thread is
      inside libcurl. */
  lemma NoFreeInUse(run: seq<State>, i: nat, t: Tid, r: State, h: Handle)
    requires IsRun(run) && i < |run| && t < |run[i].pcs| && Step(run[i], t, r)
    requires h in run[i].live && h !in r.live
    ensures run[i].handle == Some(h) && r.handle == None
    ensures forall u :: 0 <= u < |run[i].pcs| && u != t ==> CallOf(run[i].pcs[u]).None?
  {
    var s := run[i];
    RunKeepsInv(run, i);
    assert ThreadLocks(s, t) && CallOk(s, s.pcs[t]);
    FreeingStep(s, t, r, h);
    forall u | 0 <= u < |s.pcs| && u != t ensures CallOf(s.pcs[u]).None? {
      AloneWithBothLocks(s, t, u);
    }
  }

  predicate Frees(s: State, t: Tid, r: State, h: Handle)
    requires t < |s.pcs|
  {
    && ((s.pcs[t].Close? && s.pcs[t].c.Tearing?) || (s.pcs[t].Open? && s.pcs[t].o.Failing?))
    && s.handle == Some(h) && r.handle == None
  }

  lemma WriteKeepsLive(s: State, t: Tid, r: State)
    requires t < |s.pcs| && WriteStep(s, t, r)
    ensures r.live == s.live
  {
  }

  lemma WorkerKeepsLive(s: State, t: Tid, r: State)
    requires t < |s.pcs| && WorkerStep(s, t, r)
    ensures r.live == s.live
  {
  }

  lemma CloseFrees(s: State, t: Tid, r: State, h: Handle)
    requires t < |s.pcs| && CloseStep(s, t, r) && CallOk(s, s.pcs[t]) && h in s.live && h !in r.live
    ensures Frees(s, t, r, h)
  {
  }

  lemma ConnectKeepsLive(s: State, t: Tid, r: State)
    requires t < |s.pcs|
    requires OpenStartStep(s, t, r) || HandleStep(s, t, r) || ConnectStep(s, t, r)
    ensures s.live <= r.live
  {
  }

  lemma UpgradeKeepsLive(s: State, t: Tid, r: State)
    requires t < |s.pcs| && (UpgradeStep(s, t, r) || OpenDoneStep(s, t, r))
    ensures s.live <= r.live
  {
  }

  lemma OpenFrees(s: State, t: Tid, r: State, h: Handle)
    requires t < |s.pcs| && OpenStep(s, t, r) && CallOk(s, s.pcs[t]) && h in s.live && h !in r.live
    ensures Frees(s, t, r, h)
  {
    if OpenStartStep(s, t, r) || HandleStep(s, t, r) || ConnectStep(s, t, r) {
      ConnectKeepsLive(s, t, r);
    } else if UpgradeStep(s, t, r) || OpenDoneStep(s, t, r) {
      UpgradeKeepsLive(s, t, r);
    }
  }

  lemma FreeingStep(s: State, t: Tid, r: State, h: Handle)
    requires t < |s.pcs| && Step(s, t, r) && CallOk(s, s.pcs[t])
    requires h in s.live && h !in r.live
    ensures Frees(s, t, r, h)
  {
    if WriteStep(s, t, r) {
      WriteKeepsLive(s, t, r);
    } else if WorkerStep(s, t, r) {
      WorkerKeepsLive(s, t, r);
    } else if CloseStep(s, t, r) {
      CloseFrees(s, t, r, h);
    } else {
      OpenFrees(s, t, r, h);
    }
  }

  predicate Unlocked(pc: Pc) { pc.Open? && (pc.o.Options? || pc.o.Perform?) }

  predicate InCall(pc: Pc) { CallOf(pc).Some? }

  predicate Sending(pc: Pc) { pc.Write? && pc.w.Writing? && pc.why.ForSend? }

  lemma OverlapInState(s: State, t: Tid, u: Tid)
    requires Inv(s) && t < |s.pcs| && u < |s.pcs| && t != u && InCall(s.pcs[t]) && InCall(s.pcs[u])
    ensures (Unlocked(s.pcs[t]) && Sending(s.pcs[u])) || (Unlocked(s.pcs[u]) && Sending(s.pcs[t]))
  {
    assert ThreadLocks(s, t) && ThreadLocks(s, u);
  }

  /** Two threads are inside libcurl at once exactly when one of them is `open`, which
      configures and connects its handle without m_curlMutex, and the other a `send`
      that passed its m_connected check in an earlier session. Both work on the new
      handle. */
  lemma CallsOverlapOnlyInOpen(run: seq<State>, i: nat, t: Tid, u: Tid)
    requires IsRun(run) && i < |run| && t < |run[i].pcs| && u < |run[i].pcs| && t != u
    ensures InCall(run[i].pcs[t]) && InCall(run[i].pcs[u])
       <==> (Unlocked(run[i].pcs[t]) && Sending(run[i].pcs[u])) || (Unlocked(run[i].pcs[u]) && Sending(run[i].pcs[t]))
    ensures InCall(run[i].pcs[t]) && InCall(run[i].pcs[u]) ==>
      CallOf(run[i].pcs[t]).value == CallOf(run[i].pcs[u]).value == run[i].handle
  {
    RunKeepsInv(run, i);
    assert CallOk(run[i], run[i].pcs[t]) && CallOk(run[i], run[i].pcs[u]);
    if InCall(run[i].pcs[t]) && InCall(run[i].pcs[u]) {
      OverlapInState(run[i], t, u);
    }
  }

  /** For the caller: as long as no `send` is unfinished while `open` runs, calls never
      overlap. */
  lemma QuietOpenNoOverlap(run: seq<State>, i: nat, t: Tid, u: Tid)
    requires IsRun(run) && i < |run| && t < |run[i].pcs| && u < |run[i].pcs| && t != u
    requires forall x, y :: 0 <= x < |run[i].pcs| && 0 <= y < |run[i].pcs| && run[i].pcs[x].Open? ==>
      !(run[i].pcs[y].Write? && run[i].pcs[y].why.ForSend?)
    ensures !(InCall(run[i].pcs[t]) && InCall(run[i].pcs[u]))
  {
    CallsOverlapOnlyInOpen(run, i, t, u);
  }

  // ---- A run that reaches the overlap

  ghost predicate Reachable(s: State) {
    exists run :: IsRun(run) && run[|run| - 1] == s
  }

  lemma StartReachable(s: State)
    requires Start(s)
    ensures Reachable(s)
  {
    assert IsRun([s]) && [s][|[s]| - 1] == s;
  }

  lemma Reach(s: State, t: Tid, r: State)
    requires Reachable(s) && t < |s.pcs| && (Step(s, t, r) || Call(s, t, r))
    ensures Reachable(r)
  {
    var run :| IsRun(run) && run[|run| - 1] == s;
    var longer := run + [r];
    assert Next(s, r);
    forall i | 0 <= i < |longer| - 1 ensures Next(longer[i], longer[i + 1]) {
      if i < |run| - 1 {
        assert Next(run[i], run[i + 1]);
      }
    }
    assert IsRun(longer) && longer[|longer| - 1] == r;
  }

  lemma ReachWrite(s: State, t: Tid, r: State)
    requires Reachable(s) && t < |s.pcs| && WriteStep(s, t, r)
    ensures Reachable(r)
  {
    Reach(s, t, r);
  }

  lemma ReachClose(s: State, t: Tid, r: State)
    requires Reachable(s) && t < |s.pcs| && CloseStep(s, t, r)
    ensures Reachable(r)
  {
    Reach(s, t, r);
  }

  lemma ReachOpen(s: State, t: Tid, r: State)
    requires Reachable(s) && t < |s.pcs| && OpenStep(s, t, r)
    ensures Reachable(r)
  {
    Reach(s, t, r);
  }

  lemma ReachWorker(s: State, r: State)
    requires Reachable(s) && 0 < |s.pcs| && WorkerStep(s, 0, r)
    ensures Reachable(r)
  {
    Reach(s, 0, r);
  }

  lemma ReachTeardown(s: State, t: Tid, r: State)
    requires Reachable(s) && t < |s.pcs| && TeardownStep(s, t, r)
    ensures Reachable(r)
  {
    ReachClose(s, t, r);
  }

  lemma ReachSend(s: State, t: Tid, r: State)
    requires Reachable(s) && t < |s.pcs| && SendStep(s, t, r)
    ensures Reachable(r)
  {
    ReachWrite(s, t, r);
  }

  lemma ReachHandle(s: State, t: Tid, r: State)
    requires Reachable(s) && t < |s.pcs| && HandleStep(s, t, r)
    ensures Reachable(r)
  {
    ReachOpen(s, t, r);
  }

  lemma ReachReceive(s: State, r: State)
    requires Reachable(s) && 0 < |s.pcs| && ReceiveStep(s, 0, r)
    ensures Reachable(r)
  {
    ReachWorker(s, r);
  }

  lemma ReachEnd(s: State, r: State)
    requires Reachable(s) && 0 < |s.pcs| && WorkerEndStep(s, 0, r)
    ensures Reachable(r)
  {
    ReachWorker(s, r);
  }

  // The worker has ended, or there is none, and nobody holds a mutex.
  ghost predicate Idling(s: State, t: Tid) {
    && Reachable(s) && 0 < t < |s.pcs| && s.pcs[t] == Idle && s.lifecycle.None? && s.curl.None? && !s.connected
    && (s.joinable ==> s.pcs[0] == Work(Ended))
  }

  lemma CloseUpToJoin(s: State, t: Tid) returns (r: State)
    requires Idling(s, t)
    ensures Reachable(r) && r == Go(s, t, Close(Join, Reopen)).(lifecycle := Some(t), running := false)
  {
    var s1 := Go(s, t, Close(LifecycleLock, Reopen));
    Reach(s, t, s1);
    var s2 := Go(s1, t, Close(Exchange, Reopen)).(lifecycle := Some(t));
    ReachClose(s1, t, s2);
    var s3 := Go(s2, t, Close(StopWorker, Reopen));
    ReachClose(s2, t, s3);
    r := Go(s3, t, Close(Join, Reopen)).(running := false);
    ReachClose(s3, t, r);
  }

  function Joined0(s: State): (pcs: seq<Pc>) {
    if s.joinable && s.pcs != [] then s.pcs[0 := Work(NoWorker)] else s.pcs
  }

  lemma JoinAndTear(s: State, t: Tid) returns (r: State)
    requires Reachable(s) && 0 < t < |s.pcs| && s.pcs[t] == Close(Join, Reopen) && s.curl.None?
    requires s.joinable ==> s.pcs[0] == Work(Ended)
    ensures Reachable(r)
    ensures r == s.(joinable := false, handle := None, live := s.live - HandleSet(s.handle),
                    pcs := Joined0(s)[t := Open(Parse)])
  {
    var s1 := s.(joinable := false, pcs := Joined0(s)[t := Close(TearLock, Reopen)]);
    assert Joined0(s)[t := Close(TearLock, Reopen)]
        == if s.joinable then s.pcs[t := Close(TearLock, Reopen)][0 := Work(NoWorker)]
           else s.pcs[t := Close(TearLock, Reopen)];
    ReachClose(s, t, s1);
    r := Tear(s1, t);
  }

  lemma Tear(s: State, t: Tid) returns (r: State)
    requires Reachable(s) && t < |s.pcs| && s.pcs[t] == Close(TearLock, Reopen) && s.curl.None?
    ensures Reachable(r)
    ensures r == s.(handle := None, live := s.live - HandleSet(s.handle), pcs := s.pcs[t := Open(Parse)])
  {
    var s1 := Take(s, t, Close(TearHeld, Reopen));
    ReachClose(s, t, s1);
    var s2;
    if s.handle.None? {
      s2 := Drop(s1, t, Close(Closed, Reopen));
      ReachTeardown(s1, t, s2);
    } else {
      s2 := Frees0(s1, t);
    }
    r := Go(s2, t, Open(Parse));
    ReachTeardown(s2, t, r);
  }

  lemma Frees0(s: State, t: Tid) returns (r: State)
    requires Reachable(s) && t < |s.pcs| && s.pcs[t] == Close(TearHeld, Reopen) && s.handle.Some?
    ensures Reachable(r)
    ensures r == Drop(s, t, Close(Closed, Reopen)).(handle := None, live := s.live - HandleSet(s.handle))
  {
    var s1 := Go(s, t, Close(Tearing(s.handle), Reopen));
    ReachTeardown(s, t, s1);
    r := Drop(s1, t, Close(Closed, Reopen)).(handle := None, live := s.live - HandleSet(s.handle));
    ReachTeardown(s1, t, r);
  }

  lemma StoreHandle(s: State, t: Tid) returns (r: State)
    requires Reachable(s) && t < |s.pcs| && s.pcs[t] == Open(Parse) && s.curl.None? && s.live == {}
    ensures Reachable(r) && r == Go(s, t, Open(Configure)).(handle := Some(0), live := {0})
  {
    var s1 := Go(s, t, Open(Init));
    ReachOpen(s, t, s1);
    var h: Handle := 0;
    var s2 := Go(s1, t, Open(SetLock(h))).(live := s1.live + {h});
    assert h !in s1.live;
    ReachHandle(s1, t, s2);
    var s3 := Take(s2, t, Open(SetHeld(h)));
    ReachHandle(s2, t, s3);
    r := Drop(s3, t, Open(Configure)).(handle := Some(h));
    ReachHandle(s3, t, r);
  }

  lemma Connects(s: State, t: Tid) returns (r: State)
    requires Reachable(s) && t < |s.pcs| && s.pcs[t] == Open(Configure)
    ensures Reachable(r) && r == Go(s, t, Open(Perform(s.handle)))
  {
    var s1 := Go(s, t, Open(Options(s.handle)));
    ReachOpen(s, t, s1);
    r := Go(s1, t, Open(Perform(s.handle)));
    ReachOpen(s1, t, r);
  }

  /** An idle thread calls open and gets as far as curl_easy_perform. */
  lemma OpensUpToPerform(s: State, t: Tid) returns (r: State)
    requires Idling(s, t) && s.live == HandleSet(s.handle)
    ensures Reachable(r)
    ensures r == s.(lifecycle := Some(t), running := false, joinable := false, handle := Some(0), live := {0},
                    pcs := Joined0(s)[t := Open(Perform(Some(0)))])
  {
    var s1 := CloseUpToJoin(s, t);
    var s2 := JoinAndTear(s1, t);
    assert s2.live == {};
    var s3 := StoreHandle(s2, t);
    r := Connects(s3, t);
    assert Joined0(s1) == Joined0(s)[t := Close(Join, Reopen)];
  }

  lemma WritesUpgrade(s: State, t: Tid) returns (r: State)
    requires Reachable(s) && t < |s.pcs| && s.pcs[t] == Open(Perform(s.handle)) && s.curl.None? && s.handle.Some?
    ensures Reachable(r) && r == Go(s, t, Poll(PollLock, false))
  {
    var s1 := Go(s, t, Write(WriteLock, ForUpgrade));
    ReachOpen(s, t, s1);
    r := WritesOnce(s1, t);
  }

  lemma WritesOnce(s: State, t: Tid) returns (r: State)
    requires Reachable(s) && t < |s.pcs| && s.pcs[t] == Write(WriteLock, ForUpgrade) && s.curl.None? && s.handle.Some?
    ensures Reachable(r) && r == Go(s, t, Poll(PollLock, false))
  {
    var s1 := Take(s, t, Write(WriteHeld, ForUpgrade));
    ReachSend(s, t, s1);
    var s2 := Go(s1, t, Write(Writing(s.handle), ForUpgrade));
    ReachSend(s1, t, s2);
    r := Drop(s2, t, Poll(PollLock, false));
    assert r == Drop(s2, t, Written(ForUpgrade, true));
    ReachSend(s2, t, r);
  }

  lemma Polls(s: State, t: Tid, worker: bool) returns (r: State)
    requires Reachable(s) && t < |s.pcs| && s.pcs[t] == Poll(PollLock, worker) && s.curl.None? && s.handle.Some?
    ensures Reachable(r) && r == Go(s, t, if worker then Work(RecvLock) else Open(ReadLock))
  {
    var s1 := Take(s, t, Poll(PollHeld, worker));
    ReachWrite(s, t, s1);
    var s2 := Go(s1, t, Poll(Polling(s.handle), worker));
    ReachWrite(s1, t, s2);
    r := Drop(s2, t, if worker then Work(RecvLock) else Open(ReadLock));
    ReachWrite(s2, t, r);
  }

  lemma ReadsAnswer(s: State, t: Tid) returns (r: State)
    requires Reachable(s) && t < |s.pcs| && s.pcs[t] == Open(ReadLock) && s.curl.None?
    ensures Reachable(r) && r == Go(s, t, Open(SetRunning))
  {
    var s1 := Take(s, t, Open(Reading(s.handle)));
    ReachOpen(s, t, s1);
    r := Drop(s1, t, Open(SetRunning));
    ReachOpen(s1, t, r);
  }

  lemma SetsFlags(s: State, t: Tid) returns (r: State)
    requires Reachable(s) && t < |s.pcs| && s.pcs[t] == Open(SetRunning)
    ensures Reachable(r) && r == Go(s, t, Open(Spawn)).(running := true, connected := true, attempts := 0)
  {
    var s1 := Go(s, t, Open(SetConnected)).(running := true);
    ReachOpen(s, t, s1);
    r := Go(s1, t, Open(Spawn)).(connected := true, attempts := 0);
    ReachOpen(s1, t, r);
  }

  lemma StartsWorker(s: State, t: Tid) returns (r: State)
    requires Reachable(s) && 0 < t < |s.pcs| && s.pcs[t] == Open(Spawn)
    ensures Reachable(r)
    ensures r == s.(lifecycle := None, joinable := true, sessions := s.sessions + 1,
                    pcs := s.pcs[0 := Work(Loop)][t := Idle])
  {
    var s1 := s.(joinable := true, pcs := s.pcs[t := Open(Leave)][0 := Work(Loop)], sessions := s.sessions + 1);
    ReachOpen(s, t, s1);
    r := Go(s1, t, Idle).(lifecycle := None);
    ReachOpen(s1, t, r);
  }

  lemma Spawns(s: State, t: Tid) returns (r: State)
    requires Reachable(s) && 0 < t < |s.pcs| && s.pcs[t] == Open(ReadLock) && s.curl.None?
    ensures Reachable(r)
    ensures r == s.(lifecycle := None, running := true, connected := true, joinable := true, attempts := 0,
                    sessions := s.sessions + 1, pcs := s.pcs[0 := Work(Loop)][t := Idle])
  {
    var s1 := ReadsAnswer(s, t);
    var s2 := SetsFlags(s1, t);
    r := StartsWorker(s2, t);
  }

  /** A whole open that succeeds. */
  lemma Opens(s: State, t: Tid) returns (r: State)
    requires Idling(s, t) && s.live == HandleSet(s.handle)
    ensures Reachable(r)
    ensures r == s.(lifecycle := None, running := true, connected := true, joinable := true, attempts := 0,
                    handle := Some(0), live := {0}, sessions := s.sessions + 1, pcs := s.pcs[0 := Work(Loop)])
  {
    var s1 := OpensUpToPerform(s, t);
    var s2 := WritesUpgrade(s1, t);
    var s3 := Polls(s2, t, false);
    r := Spawns(s3, t);
    assert s.pcs[0 := Work(Loop)] == Joined0(s)[t := Open(ReadLock)][0 := Work(Loop)][t := Idle];
  }

  /** The worker of a session receives. */
  lemma Receives(s: State, answer: WorkPc) returns (r: State)
    requires Reachable(s) && 0 < |s.pcs| && s.pcs[0] == Work(Loop) && s.running && s.curl.None? && s.handle.Some?
    requires answer == Dispatch || answer == ReceiveFailed || answer == ClearConnected
    ensures Reachable(r) && r == Go(s, 0, Work(answer))
  {
    var s1 := Go(s, 0, Poll(PollLock, true));
    ReachReceive(s, s1);
    var s2 := Polls(s1, 0, true);
    var s3 := Take(s2, 0, Work(RecvHeld));
    ReachReceive(s2, s3);
    var s4 := Go(s3, 0, Work(Receiving(s.handle)));
    ReachReceive(s3, s4);
    r := Drop(s4, 0, Work(answer));
    ReachReceive(s4, r);
  }

  /** The peer ends the session and the worker leaves its loop. */
  lemma WorkerEnds(s: State) returns (r: State)
    requires Reachable(s) && 0 < |s.pcs| && s.pcs[0] == Work(Loop) && s.running && s.curl.None? && s.handle.Some?
    ensures Reachable(r)
    ensures r == Go(s, 0, Work(Ended)).(running := false, connected := false, notified := s.notified + 1)
  {
    var s1 := Receives(s, ClearConnected);
    r := Leaves(s1);
  }

  lemma Leaves(s: State) returns (r: State)
    requires Reachable(s) && 0 < |s.pcs| && s.pcs[0] == Work(ClearConnected)
    ensures Reachable(r)
    ensures r == Go(s, 0, Work(Ended)).(running := false, connected := false, notified := s.notified + 1)
  {
    var s1 := Go(s, 0, Work(ClearRunning)).(connected := false);
    ReachEnd(s, s1);
    var s2 := Go(s1, 0, Work(NotifyClose)).(running := false);
    ReachEnd(s1, s2);
    r := Go(s2, 0, Work(Ended)).(notified := s.notified + 1);
    ReachEnd(s2, r);
  }

  /** A send passes its check of m_connected and gets no further for now. */
  lemma PassesCheck(s: State, t: Tid) returns (r: State)
    requires Reachable(s) && t < |s.pcs| && s.pcs[t] == Idle && s.connected
    ensures Reachable(r) && r == Go(s, t, Write(MaskLock, ForSend))
  {
    var s1 := Go(s, t, Write(CheckConnected, ForSend));
    Reach(s, t, s1);
    r := Go(s1, t, Write(MaskLock, ForSend));
    ReachWrite(s1, t, r);
  }

  lemma EntersWrite(s: State, t: Tid, why: Purpose) returns (r: State)
    requires Reachable(s) && t < |s.pcs| && s.pcs[t] == Write(MaskLock, why) && s.curl.None? && s.handle.Some?
    ensures Reachable(r) && r == Go(s, t, Write(Writing(s.handle), why)).(curl := Some(t))
  {
    var s1 := Take(s, t, Write(MaskHeld, why));
    ReachWrite(s, t, s1);
    var s2 := Drop(s1, t, Write(WriteLock, why));
    ReachWrite(s1, t, s2);
    var s3 := Take(s2, t, Write(WriteHeld, why));
    ReachSend(s2, t, s3);
    r := Go(s3, t, Write(Writing(s.handle), why));
    ReachSend(s3, t, r);
  }

  const THREE := State(None, None, None, {}, false, false, false, [Work(NoWorker), Idle, Idle], 0, 0, 0)

  /** From the start with two callers: thread 1 opens, thread 2 passes the check of
      `send`, the worker ends, thread 1 opens again and is inside curl_easy_perform when
      thread 2 enters curl_easy_send on the same handle. */
  lemma OverlapIsReached() returns (s: State)
    ensures Reachable(s) && |s.pcs| == 3
    ensures s.handle.Some? && s.pcs[1] == Open(Perform(s.handle)) && s.pcs[2] == Write(Writing(s.handle), ForSend)
    ensures InCall(s.pcs[1]) && InCall(s.pcs[2])
  {
    StartReachable(THREE);
    var s1 := Opens(THREE, 1);
    var s2 := PassesCheck(s1, 2);
    var s3 := WorkerEnds(s2);
    var s4 := OpensUpToPerform(s3, 1);
    s := EntersWrite(s4, 2, ForSend);
  }

  // ---- Session discipline

  /** Whenever closeLocked has just finished: its worker has ended and is joined,
      both flags are false, the handle is null and nothing leaked, and onClose has
      fired once for each successful open. */
  lemma CloseDiscipline(run: seq<State>, i: nat, t: Tid)
    requires IsRun(run) && i < |run| && t < |run[i].pcs| && run[i].pcs[t].Close? && run[i].pcs[t].c.Closed?
    ensures run[i].pcs[0] == Work(NoWorker) && !run[i].joinable
    ensures !run[i].running && !run[i].connected
    ensures run[i].handle == None && run[i].live == {}
    ensures run[i].notified == run[i].sessions
  {
    RunKeepsInv(run, i);
    assert ThreadLocks(run[i], t);
  }

  /** At every moment at most one session lacks its onClose, at most one close frame
      was attempted in the session, and none while it still counts as connected. */
  lemma SessionDiscipline(run: seq<State>, i: nat)
    requires IsRun(run) && i < |run|
    ensures run[i].notified <= run[i].sessions <= run[i].notified + 1
    ensures run[i].attempts <= 1 && (run[i].connected ==> run[i].attempts == 0)
  {
    RunKeepsInv(run, i);
  }

  /** A worker is started only into an empty slot, so at most one is alive. */
  lemma OneWorker(run: seq<State>, i: nat, t: Tid)
    requires IsRun(run) && i < |run| && t < |run[i].pcs| && run[i].pcs[t] == Open(Spawn)
    ensures t != 0 && run[i].pcs[0] == Work(NoWorker) && !run[i].joinable
  {
    RunKeepsInv(run, i);
    SpawnFindsNoWorker(run[i], t);
  }

  // A callback made by `open` before it has set the flags, or by the worker's onClose.
  predicate OutsideSession(pc: Pc) { (pc.Open? && !pc.o.Spawn? && !pc.o.Leave?) || pc == Work(NotifyClose) }

  /** A callback made there finds m_connected false, so a `send` it tries returns at
      once. */
  lemma NoSendOutsideSession(run: seq<State>, i: nat, t: Tid)
    requires IsRun(run) && i < |run| && t < |run[i].pcs| && OutsideSession(run[i].pcs[t])
    ensures !run[i].connected
  {
    RunKeepsInv(run, i);
    assert ThreadLocks(run[i], t);
  }

  // ---- Deadlock freedom

  function WriteWitness(s: State, t: Tid): (r: State)
    requires t < |s.pcs|
  {
    match s.pcs[t]
    case Write(CheckConnected, why) =>
      Go(s, t, if s.connected then Write(MaskLock, why)
               else Written(why, false))
    case Write(MaskLock, why) => Take(s, t, Write(MaskHeld, why))
    case Write(MaskHeld, why) =>
      Drop(s, t, if why.ForClose? && s.handle.None? then Close(AwaitAck(0), why.after) else Write(WriteLock, why))
    case Write(WriteLock, why) => Take(s, t, Write(WriteHeld, why))
    case Write(WriteHeld, why) =>
      if s.handle.None? then Drop(s, t, Written(why, false)) else Go(s, t, Write(Writing(s.handle), why))
    case Write(Writing(_), why) => Drop(s, t, Write(WriteLock, why))
    case Poll(PollLock, w) => Take(s, t, Poll(PollHeld, w))
    case Poll(PollHeld, w) =>
      if s.handle.None? then Drop(s, t, if w then Work(RecvLock) else Open(ReadLock))
      else Go(s, t, Poll(Polling(s.handle), w))
    case Poll(Polling(_), w) => Drop(s, t, if w then Work(RecvLock) else Open(ReadLock))
    case _ => s
  }

  /** The three things a thread can wait for. */
  predicate Blocked(s: State, pc: Pc)
    requires |s.pcs| >= 1
  {
    || (WantsCurl(pc) && s.curl.Some?)
    || (WantsLifecycle(pc) && s.lifecycle.Some?)
    || (pc.Close? && pc.c.Join? && s.joinable && s.pcs[0] != Work(Ended))
  }

  lemma WriterMoves(s: State, t: Tid)
    requires t < |s.pcs| && (s.pcs[t].Write? || s.pcs[t].Poll?) && !Blocked(s, s.pcs[t])
    ensures exists r :: Step(s, t, r)
  {
    assert WriteStep(s, t, WriteWitness(s, t));
    assert Step(s, t, WriteWitness(s, t));
  }

  lemma CloserMoves(s: State, t: Tid)
    requires t < |s.pcs| && s.pcs[t].Close? && !Blocked(s, s.pcs[t]) && (t == 0 <==> IsWorkerPc(s.pcs[t]))
    ensures exists r :: Step(s, t, r)
  {
    var r := match s.pcs[t]
      case Close(LifecycleLock, after) => Go(s, t, Close(Exchange, after)).(lifecycle := Some(t))
      case Close(Exchange, after) =>
        if s.connected then Go(s, t, Write(MaskLock, ForClose(after))).(connected := false, attempts := s.attempts + 1)
        else Go(s, t, Close(StopWorker, after))
      case Close(AwaitAck(i), after) =>
        Go(s, t, if i < 20 && s.running then Close(AwaitAck(i + 1), after) else Close(StopWorker, after))
      case Close(StopWorker, after) => Go(s, t, Close(Join, after)).(running := false)
      case Close(Join, after) =>
        if !s.joinable then Go(s, t, Close(TearLock, after))
        else s.(joinable := false, pcs := s.pcs[t := Close(TearLock, after)][0 := Work(NoWorker)])
      case Close(TearLock, after) => Take(s, t, Close(TearHeld, after))
      case Close(TearHeld, after) =>
        if s.handle.None? then Drop(s, t, Close(Closed, after)) else Go(s, t, Close(Tearing(s.handle), after))
      case Close(Tearing(arg), after) =>
        Drop(s, t, Close(Closed, after)).(handle := None, live := s.live - HandleSet(arg))
      case Close(Closed, after) => if after.Reopen? then Go(s, t, Open(Parse)) else Go(s, t, Idle).(lifecycle := None)
      case _ => s;
    assert CloseStep(s, t, r);
    assert Step(s, t, r);
  }

  lemma OpenerMoves(s: State, t: Tid)
    requires t < |s.pcs| && s.pcs[t].Open? && !Blocked(s, s.pcs[t])
    ensures exists r :: Step(s, t, r)
  {
    var r := match s.pcs[t]
      case Open(Parse) => Go(s, t, Open(Leave))
      case Open(Init) => Go(s, t, Open(Leave))
      case Open(SetLock(h)) => Take(s, t, Open(SetHeld(h)))
      case Open(SetHeld(h)) => Drop(s, t, Open(Configure)).(handle := Some(h))
      case Open(Configure) => Go(s, t, Open(Options(s.handle)))
      case Open(Options(_)) => Go(s, t, Open(Perform(s.handle)))
      case Open(Perform(_)) => Go(s, t, Open(FailLock))
      case Open(ReadLock) => Take(s, t, Open(Reading(s.handle)))
      case Open(Reading(_)) => Drop(s, t, Open(FailLock))
      case Open(FailLock) => Take(s, t, Open(FailHeld))
      case Open(FailHeld) => if s.handle.None? then Drop(s, t, Open(Leave)) else Go(s, t, Open(Failing(s.handle)))
      case Open(Failing(arg)) =>
        Drop(s, t, Open(Leave)).(handle := None, live := s.live - HandleSet(arg))
      case Open(SetRunning) => Go(s, t, Open(SetConnected)).(running := true)
      case Open(SetConnected) => Go(s, t, Open(Spawn)).(connected := true, attempts := 0)
      case Open(Spawn) =>
        s.(joinable := true, pcs := s.pcs[t := Open(Leave)][0 := Work(Loop)], sessions := s.sessions + 1)
      case Open(Leave) => Go(s, t, Idle).(lifecycle := None)
      case _ => s;
    assert OpenStep(s, t, r);
    assert Step(s, t, r);
  }

  lemma WorkerMoves(s: State, t: Tid)
    requires t < |s.pcs| && !Blocked(s, s.pcs[t]) && !Quiescent(s.pcs[t])
    requires s.pcs[t].Work?
    ensures exists r :: Step(s, t, r)
  {
    var r := match s.pcs[t]
      case Work(Loop) => Go(s, t, if s.running then Poll(PollLock, true) else Work(ClearConnected))
      case Work(RecvLock) => Take(s, t, Work(RecvHeld))
      case Work(RecvHeld) =>
        if s.handle.None? then Drop(s, t, Work(ClearConnected)) else Go(s, t, Work(Receiving(s.handle)))
      case Work(Receiving(_)) => Drop(s, t, Work(Loop))
      case Work(Dispatch) => Go(s, t, Work(Loop))
      case Work(ReceiveFailed) => Go(s, t, Work(if s.running then ReportError else ClearConnected))
      case Work(ReportError) => Go(s, t, Work(ClearConnected))
      case Work(ClearConnected) => Go(s, t, Work(ClearRunning)).(connected := false)
      case Work(ClearRunning) => Go(s, t, Work(NotifyClose)).(running := false)
      case Work(NotifyClose) => Go(s, t, Work(Ended)).(notified := s.notified + 1)
      case _ => s;
    assert WorkerStep(s, t, r);
    assert Step(s, t, r);
  }

  lemma UnblockedMoves(s: State, t: Tid)
    requires Locks(s) && t < |s.pcs| && !Quiescent(s.pcs[t]) && !Blocked(s, s.pcs[t])
    ensures exists r :: Step(s, t, r)
  {
    assert ThreadLocks(s, t);
    if s.pcs[t].Write? || s.pcs[t].Poll? {
      WriterMoves(s, t);
    } else if s.pcs[t].Close? {
      CloserMoves(s, t);
    } else if s.pcs[t].Open? {
      OpenerMoves(s, t);
    } else {
      WorkerMoves(s, t);
    }
  }

  /** Who waits, waits for someone who does not: the owner of m_curlMutex waits for
      nothing, the owner of m_lifecycleMutex at most for m_curlMutex or the worker,
      and the worker at most for m_curlMutex. */
  lemma SomeoneUnblocked(s: State, t: Tid) returns (u: Tid)
    requires Inv(s) && t < |s.pcs| && !Quiescent(s.pcs[t])
    ensures u < |s.pcs| && !Quiescent(s.pcs[u]) && !Blocked(s, s.pcs[u])
  {
    assert ThreadLocks(s, t) && ThreadLocks(s, 0);
    u := t;
    if s.curl.Some? {
      u := s.curl.value;
      assert ThreadLocks(s, u);
    } else if WantsLifecycle(s.pcs[t]) && s.lifecycle.Some? {
      u := s.lifecycle.value;
      assert ThreadLocks(s, u);
    }
    if s.pcs[u].Close? && s.pcs[u].c.Join? && Blocked(s, s.pcs[u]) {
      u := 0;
    }
  }

  /** Deadlock freedom: in every state of every run in which some call or the worker
      is unfinished, one of the unfinished threads can take a step. */
  lemma DeadlockFreedom(run: seq<State>, i: nat, t: Tid)
    requires IsRun(run) && i < |run| && t < |run[i].pcs| && !Quiescent(run[i].pcs[t])
    ensures exists u, r :: 0 <= u < |run[i].pcs| && !Quiescent(run[i].pcs[u]) && Step(run[i], u, r)
  {
    RunKeepsInv(run, i);
    var u := SomeoneUnblocked(run[i], t);
    UnblockedMoves(run[i], u);
  }
}
