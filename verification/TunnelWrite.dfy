// The write loop over a sender that accepts part of what it is offered
// (CurlTransport::tunnelWrite), with any number of writers, across any number of
// connections. Each curl_easy_send happens under m_curlMutex, so it is one atomic
// step; between two steps of a writer anything else may happen, a teardown and a new
// `open` included, because the loop reads m_curl afresh on each pass.
module TunnelWriting {
  import opened Prelude
  import opened ByteBits
  import opened WsFrames

  datatype Status = Sending | Succeeded | Failed
  datatype Writer = Writer(data: Bytes, total: nat, status: Status)
  type Tagged = seq<(nat, Byte)>

  // wires: what each handle carried, oldest first; m_curl is the last one, unless it
  // has been freed.
  datatype State = State(wires: seq<Tagged>, writers: seq<Writer>, usable: bool)

  datatype Action =
    | Start(data: Bytes)          // tunnelWrite is called
    | Accept(w: nat, count: nat)  // CURLE_OK with this many bytes sent
    | Again(w: nat)               // CURLE_AGAIN
    | Fail(w: nat)                // any other result
    | FindGone(w: nat)            // m_curl is null
    | Finish(w: nat)              // the loop ends, true is returned
    | Free                        // teardown
    | Replace                     // open stores a new handle in m_curl

  function Tag(w: nat, data: Bytes): (t: Tagged)
    ensures |t| == |data|
  {
    seq(|data|, i requires 0 <= i < |data| => (w, data[i]))
  }

  predicate CanSend(s: State, w: nat) {
    w < |s.writers| && s.writers[w].status == Sending && s.writers[w].total < |s.writers[w].data|
  }

  predicate Usable(s: State) { s.usable && s.wires != [] }

  predicate Enabled(s: State, a: Action) {
    match a
    case Start(_) => true
    case Accept(w, count) => CanSend(s, w) && Usable(s) && s.writers[w].total + count <= |s.writers[w].data|
    case Again(w) => CanSend(s, w) && Usable(s)
    case Fail(w) => CanSend(s, w) && Usable(s)
    case FindGone(w) => CanSend(s, w) && !Usable(s)
    case Finish(w) => w < |s.writers| && s.writers[w].status == Sending && s.writers[w].total >= |s.writers[w].data|
    case Free => true
    case Replace => !s.usable
  }

  function Step(s: State, a: Action): (r: State)
    requires Enabled(s, a)
  {
    match a
    case Start(data) => s.(writers := s.writers + [Writer(data, 0, Sending)])
    case Accept(w, count) =>
      var x, last := s.writers[w], |s.wires| - 1;
      s.(wires := s.wires[last := s.wires[last] + Tag(w, x.data[x.total..x.total + count])],
         writers := s.writers[w := x.(total := x.total + count)])
    case Again(_) => s
    case Fail(w) => s.(writers := s.writers[w := s.writers[w].(status := Failed)])
    case FindGone(w) => s.(writers := s.writers[w := s.writers[w].(status := Failed)])
    case Finish(w) => s.(writers := s.writers[w := s.writers[w].(status := Succeeded)])
    case Free => s.(usable := false)
    case Replace => s.(wires := s.wires + [[]], usable := true)
  }

  /** Any interleaving: an action that is not possible where it stands is skipped. */
  function Exec(s: State, actions: seq<Action>): (r: State)
    decreases |actions|
  {
    if actions == [] then s
    else Exec(if Enabled(s, actions[0]) then Step(s, actions[0]) else s, actions[1..])
  }

  lemma {:induction false} ExecAppend(s: State, a: seq<Action>, b: seq<Action>)
    ensures Exec(s, a + b) == Exec(Exec(s, a), b)
    decreases |a|
  {
    if a == [] {
      assert a + b == b;
    } else {
      assert (a + b)[1..] == a[1..] + b;
      ExecAppend(if Enabled(s, a[0]) then Step(s, a[0]) else s, a[1..], b);
    }
  }

  lemma ExecSnoc(s: State, a: seq<Action>, x: Action)
    ensures Exec(s, a + [x]) == if Enabled(Exec(s, a), x) then Step(Exec(s, a), x) else Exec(s, a)
  {
    ExecAppend(s, a, [x]);
    assert [x][1..] == [];
  }

  lemma ExecLast(s: State, actions: seq<Action>)
    requires actions != []
    ensures var k := |actions| - 1; var t := Exec(s, actions[..k]);
      Exec(s, actions) == if Enabled(t, actions[k]) then Step(t, actions[k]) else t
  {
    var k := |actions| - 1;
    ExecSnoc(s, actions[..k], actions[k]);
    assert actions == actions[..k] + [actions[k]];
  }

  const IDLE := State([], [], false)

  // ---- Conservation

  /** The bytes one writer has on a wire, in order. */
  function Projection(wire: Tagged, w: nat): (b: Bytes) {
    if wire == [] then []
    else
      var last := wire[|wire| - 1];
      Projection(wire[..|wire| - 1], w) + if last.0 == w then [last.1] else []
  }

  /** The same over all connections, oldest first. */
  function Carried(wires: seq<Tagged>, w: nat): (b: Bytes) {
    if wires == [] then [] else Carried(wires[..|wires| - 1], w) + Projection(wires[|wires| - 1], w)
  }

  lemma {:induction false} ProjectionAppend(wire: Tagged, v: nat, data: Bytes, w: nat)
    ensures Projection(wire + Tag(v, data), w) == Projection(wire, w) + if v == w then data else []
    decreases |data|
  {
    var longer := wire + Tag(v, data);
    if data == [] {
      assert longer == wire;
    } else {
      var k := |data| - 1;
      ProjectionAppend(wire, v, data[..k], w);
      assert longer[..|longer| - 1] == wire + Tag(v, data[..k]);
      assert data == data[..k] + [data[k]];
    }
  }

  /** An accept adds its bytes to the last wire only. */
  lemma AcceptCarried(wires: seq<Tagged>, v: nat, data: Bytes, w: nat)
    requires wires != []
    ensures var last := |wires| - 1;
      Carried(wires[last := wires[last] + Tag(v, data)], w) == Carried(wires, w) + if v == w then data else []
  {
    var last := |wires| - 1;
    var longer := wires[last := wires[last] + Tag(v, data)];
    assert longer[..last] == wires[..last];
    ProjectionAppend(wires[last], v, data, w);
    assert Carried(wires[..last], w) + (Projection(wires[last], w) + if v == w then data else [])
        == Carried(wires, w) + if v == w then data else [];
  }

  predicate WriterOk(s: State, w: nat)
    requires w < |s.writers|
  {
    var x := s.writers[w];
    && x.total <= |x.data|
    && Carried(s.wires, w) == x.data[..x.total]
    && (x.status == Succeeded ==> x.total == |x.data|)
  }

  predicate OwnedWire(wire: Tagged, writers: nat) { forall i :: 0 <= i < |wire| ==> wire[i].0 < writers }

  predicate Conserved(s: State) {
    && (forall w :: 0 <= w < |s.writers| ==> WriterOk(s, w))
    && (forall h :: 0 <= h < |s.wires| ==> OwnedWire(s.wires[h], |s.writers|))
  }

  lemma NothingFromStranger(wire: Tagged, w: nat)
    requires OwnedWire(wire, w)
    ensures Projection(wire, w) == []
  {
  }

  lemma {:induction false} NothingCarried(wires: seq<Tagged>, w: nat)
    requires forall h :: 0 <= h < |wires| ==> OwnedWire(wires[h], w)
    ensures Carried(wires, w) == []
    decreases |wires|
  {
    if wires != [] {
      NothingCarried(wires[..|wires| - 1], w);
      NothingFromStranger(wires[|wires| - 1], w);
    }
  }

  lemma AcceptKeepsOther(s: State, v: nat, count: nat, w: nat)
    requires Enabled(s, Accept(v, count)) && w < |s.writers| && w != v && WriterOk(s, w)
    ensures WriterOk(Step(s, Accept(v, count)), w)
  {
    var x := s.writers[v];
    AcceptCarried(s.wires, v, x.data[x.total..x.total + count], w);
    assert Carried(s.wires, w) + [] == Carried(s.wires, w);
  }

  lemma AcceptKeepsOwn(s: State, v: nat, count: nat)
    requires Enabled(s, Accept(v, count)) && WriterOk(s, v)
    ensures WriterOk(Step(s, Accept(v, count)), v)
  {
    var x := s.writers[v];
    AcceptCarried(s.wires, v, x.data[x.total..x.total + count], v);
    SliceJoin(x.data, x.total, x.total + count);
  }

  lemma SliceJoin(data: Bytes, i: nat, j: nat)
    requires i <= j <= |data|
    ensures data[..i] + data[i..j] == data[..j]
  {
  }

  lemma AcceptConserves(s: State, v: nat, count: nat)
    requires Conserved(s) && Enabled(s, Accept(v, count))
    ensures Conserved(Step(s, Accept(v, count)))
  {
    forall w | 0 <= w < |s.writers| ensures WriterOk(Step(s, Accept(v, count)), w) {
      assert WriterOk(s, w);
      if w == v {
        AcceptKeepsOwn(s, v, count);
      } else {
        AcceptKeepsOther(s, v, count, w);
      }
    }
    var last := |s.wires| - 1;
    assert OwnedWire(s.wires[last], |s.writers|);
  }

  lemma StartConserves(s: State, data: Bytes)
    requires Conserved(s)
    ensures Conserved(Step(s, Start(data)))
  {
    var t := Step(s, Start(data));
    NothingCarried(s.wires, |s.writers|);
    forall w | 0 <= w < |t.writers| ensures WriterOk(t, w) {
      assert w < |s.writers| ==> WriterOk(s, w);
    }
  }

  lemma StepConserves(s: State, a: Action)
    requires Conserved(s) && Enabled(s, a)
    ensures Conserved(Step(s, a))
  {
    if a.Accept? {
      AcceptConserves(s, a.w, a.count);
    } else if a.Start? {
      StartConserves(s, a.data);
    } else {
      OtherConserves(s, a);
    }
  }

  lemma OtherConserves(s: State, a: Action)
    requires Conserved(s) && Enabled(s, a) && !a.Accept? && !a.Start?
    ensures Conserved(Step(s, a))
  {
    var t := Step(s, a);
    forall w | 0 <= w < |t.writers| ensures WriterOk(t, w) {
      assert WriterOk(s, w);
      OtherCarried(s, a, w);
    }
  }

  lemma OtherCarried(s: State, a: Action, w: nat)
    requires Enabled(s, a) && !a.Accept?
    ensures Carried(Step(s, a).wires, w) == Carried(s.wires, w)
  {
    if a.Replace? {
      assert (s.wires + [[]])[..|s.wires|] == s.wires;
    }
  }

  /** Conservation: in every interleaving, what the wires hold of a writer, oldest
      connection first, is exactly the prefix it has sent; nothing on a wire belongs
      to nobody; and a writer that returned true has all its bytes there. */
  lemma {:induction false} WriteConservation(actions: seq<Action>)
    ensures Conserved(Exec(IDLE, actions))
    decreases |actions|
  {
    if actions != [] {
      var k := |actions| - 1;
      WriteConservation(actions[..k]);
      ExecLast(IDLE, actions);
      if Enabled(Exec(IDLE, actions[..k]), actions[k]) {
        StepConserves(Exec(IDLE, actions[..k]), actions[k]);
      }
    }
  }

  // ---- One connection or several

  /** Action i takes place. */
  predicate Happens(actions: seq<Action>, i: nat) {
    i < |actions| && Enabled(Exec(IDLE, actions[..i]), actions[i])
  }

  /** Action i puts bytes of writer w on a wire. */
  predicate Sends(actions: seq<Action>, i: nat, w: nat) {
    Happens(actions, i) && actions[i].Accept? && actions[i].w == w && actions[i].count > 0
  }

  predicate Replaces(actions: seq<Action>, k: nat) { Happens(actions, k) && actions[k].Replace? }

  /** The handle was not replaced between two accepts of the writer. */
  predicate Undivided(actions: seq<Action>, w: nat) {
    forall i, k, j :: 0 <= i < k < j < |actions| && Sends(actions, i, w) && Sends(actions, j, w) ==>
      !Replaces(actions, k)
  }

  /** Each connection carried none or all of the writer's bytes. */
  predicate OnOneWire(s: State, w: nat)
    requires w < |s.writers|
  {
    forall h :: 0 <= h < |s.wires| ==>
      Projection(s.wires[h], w) == [] || Projection(s.wires[h], w) == s.writers[w].data
  }

  /** How many handles there have been before action i. */
  function HandlesBefore(actions: seq<Action>, i: nat): (n: nat)
    requires i <= |actions|
  {
    |Exec(IDLE, actions[..i]).wires|
  }

  lemma HandlesNext(actions: seq<Action>, j: nat)
    requires j < |actions|
    ensures HandlesBefore(actions, j + 1) == HandlesBefore(actions, j) + if Replaces(actions, j) then 1 else 0
  {
    var done := actions[..j + 1];
    ExecLast(IDLE, done);
    assert done[..j] == actions[..j] && done[j] == actions[j];
  }

  lemma {:induction false} HandlesGrow(actions: seq<Action>, i: nat, j: nat)
    requires i <= j <= |actions|
    ensures HandlesBefore(actions, i) <= HandlesBefore(actions, j)
    ensures HandlesBefore(actions, i) == HandlesBefore(actions, j) <==> forall k :: i <= k < j ==> !Replaces(actions, k)
    decreases j
  {
    if i < j {
      HandlesGrow(actions, i, j - 1);
      HandlesNext(actions, j - 1);
    }
  }

  lemma UndividedByHandle(actions: seq<Action>, w: nat, i: nat, j: nat)
    requires i < j < |actions| && Sends(actions, i, w) && Sends(actions, j, w) && Undivided(actions, w)
    ensures HandlesBefore(actions, i) == HandlesBefore(actions, j)
  {
    assert !Replaces(actions, i);
    assert forall k :: i <= k < j ==> !Replaces(actions, k);
    HandlesGrow(actions, i, j);
  }

  /** Writer w has bytes on handle h because of action i. */
  predicate SendsOn(actions: seq<Action>, i: nat, w: nat, h: nat) {
    Sends(actions, i, w) && HandlesBefore(actions, i) == h + 1
  }

  lemma SendsPrefix(actions: seq<Action>, i: nat, w: nat, h: nat)
    requires actions != [] && i < |actions| - 1
    ensures SendsOn(actions, i, w, h) <==> SendsOn(actions[..|actions| - 1], i, w, h)
  {
    var before := actions[..|actions| - 1];
    assert before[..i] == actions[..i] && before[i] == actions[i];
  }

  ghost predicate SentOn(actions: seq<Action>, w: nat, h: nat) {
    exists i: nat :: SendsOn(actions, i, w, h)
  }

  lemma SentOnLast(actions: seq<Action>, w: nat, h: nat)
    requires actions != []
    ensures SentOn(actions, w, h) <==>
      SentOn(actions[..|actions| - 1], w, h) || SendsOn(actions, |actions| - 1, w, h)
  {
    var before := actions[..|actions| - 1];
    if SentOn(actions, w, h) {
      var i: nat :| SendsOn(actions, i, w, h);
      if i < |actions| - 1 {
        SendsPrefix(actions, i, w, h);
      }
    }
    if SentOn(before, w, h) {
      var i: nat :| SendsOn(before, i, w, h);
      SendsPrefix(actions, i, w, h);
    }
  }

  predicate Holds(s: State, w: nat, h: nat) { h < |s.wires| && Projection(s.wires[h], w) != [] }

  lemma HoldsLast(s: State, a: Action, w: nat, h: nat)
    requires Enabled(s, a)
    ensures Holds(Step(s, a), w, h) <==>
      Holds(s, w, h) || (a.Accept? && a.w == w && a.count > 0 && |s.wires| == h + 1)
  {
    if a.Accept? {
      var x := s.writers[a.w];
      ProjectionAppend(s.wires[|s.wires| - 1], a.w, x.data[x.total..x.total + a.count], w);
    }
  }

  /** A wire holds bytes of a writer exactly when one of its accepts went there. */
  lemma {:induction false} HoldsIsSent(actions: seq<Action>, w: nat, h: nat)
    ensures Holds(Exec(IDLE, actions), w, h) <==> SentOn(actions, w, h)
    decreases |actions|
  {
    if actions != [] {
      var k := |actions| - 1;
      HoldsIsSent(actions[..k], w, h);
      SentOnLast(actions, w, h);
      ExecLast(IDLE, actions);
      if Happens(actions, k) {
        HoldsLast(Exec(IDLE, actions[..k]), actions[k], w, h);
      }
    }
  }

  /** A wire that holds all that was carried is the only one that holds anything. */
  lemma {:induction false} CarriedAlone(wires: seq<Tagged>, w: nat, h: nat)
    requires h < |wires|
    ensures |Projection(wires[h], w)| <= |Carried(wires, w)|
    ensures Projection(wires[h], w) == Carried(wires, w) || |Projection(wires[h], w)| < |Carried(wires, w)|
    ensures (forall g :: 0 <= g < |wires| && g != h ==> Projection(wires[g], w) == []) ==>
      Projection(wires[h], w) == Carried(wires, w)
    decreases |wires|
  {
    var k := |wires| - 1;
    if h < k {
      CarriedAlone(wires[..k], w, h);
      if Projection(wires[k], w) == [] {
        assert Carried(wires, w) == Carried(wires[..k], w);
      }
    } else {
      if forall g :: 0 <= g < k ==> Projection(wires[g], w) == [] {
        CarriedNothing(wires[..k], w);
      }
      if Carried(wires[..k], w) == [] {
        assert Carried(wires, w) == Projection(wires[k], w);
      }
    }
  }

  lemma {:induction false} CarriedNothing(wires: seq<Tagged>, w: nat)
    requires forall g :: 0 <= g < |wires| ==> Projection(wires[g], w) == []
    ensures Carried(wires, w) == []
    decreases |wires|
  {
    if wires != [] {
      CarriedNothing(wires[..|wires| - 1], w);
    }
  }

  lemma {:induction false} CarriedTwo(wires: seq<Tagged>, w: nat, g: nat, h: nat)
    requires g < h < |wires|
    ensures |Projection(wires[g], w)| + |Projection(wires[h], w)| <= |Carried(wires, w)|
    decreases |wires|
  {
    var k := |wires| - 1;
    if h < k {
      CarriedTwo(wires[..k], w, g, h);
    } else {
      CarriedAlone(wires[..k], w, g);
    }
  }

  lemma UndividedHolds(actions: seq<Action>, w: nat, g: nat, h: nat)
    requires Undivided(actions, w)
    requires Holds(Exec(IDLE, actions), w, g) && Holds(Exec(IDLE, actions), w, h)
    ensures g == h
  {
    HoldsIsSent(actions, w, g);
    HoldsIsSent(actions, w, h);
    var i: nat :| SendsOn(actions, i, w, g);
    var j: nat :| SendsOn(actions, j, w, h);
    SameHandle(actions, w, i, j, g, h);
  }

  lemma SameHandle(actions: seq<Action>, w: nat, i: nat, j: nat, g: nat, h: nat)
    requires Undivided(actions, w) && SendsOn(actions, i, w, g) && SendsOn(actions, j, w, h)
    ensures g == h
  {
    if i < j {
      UndividedByHandle(actions, w, i, j);
    } else if j < i {
      UndividedByHandle(actions, w, j, i);
    }
  }

  lemma WholeIsUndivided(actions: seq<Action>, w: nat, i: nat, k: nat, j: nat)
    requires i < k < j < |actions| && Sends(actions, i, w) && Sends(actions, j, w)
    requires w < |Exec(IDLE, actions).writers| && OnOneWire(Exec(IDLE, actions), w)
    ensures !Replaces(actions, k)
  {
    var s := Exec(IDLE, actions);
    var g, h := HandlesBefore(actions, i) - 1, HandlesBefore(actions, j) - 1;
    HandlesGrow(actions, i, j);
    assert SendsOn(actions, i, w, g) && SendsOn(actions, j, w, h);
    HoldsIsSent(actions, w, g);
    HoldsIsSent(actions, w, h);
    if g < h {
      WriteConservation(actions);
      assert WriterOk(s, w);
      CarriedTwo(s.wires, w, g, h);
    }
  }

  /** What `true` is worth: all the bytes of a writer that returned true are on one
      connection if and only if the handle was not replaced between its accepts. */
  lemma TrueMeansOneWire(actions: seq<Action>, w: nat)
    requires w < |Exec(IDLE, actions).writers| && Exec(IDLE, actions).writers[w].status == Succeeded
    ensures OnOneWire(Exec(IDLE, actions), w) <==> Undivided(actions, w)
  {
    var s := Exec(IDLE, actions);
    WriteConservation(actions);
    assert WriterOk(s, w);
    if Undivided(actions, w) {
      forall h | 0 <= h < |s.wires| && Projection(s.wires[h], w) != []
        ensures Projection(s.wires[h], w) == s.writers[w].data
      {
        forall g | 0 <= g < |s.wires| && g != h ensures Projection(s.wires[g], w) == [] {
          if Holds(s, w, g) {
            UndividedHolds(actions, w, g, h);
          }
        }
        CarriedAlone(s.wires, w, h);
      }
    }
    if OnOneWire(s, w) {
      forall i, k, j | 0 <= i < k < j < |actions| && Sends(actions, i, w) && Sends(actions, j, w)
        ensures !Replaces(actions, k)
      {
        WholeIsUndivided(actions, w, i, k, j);
      }
    }
  }

  const OPENING := [Replace, Start([1, 2]), Accept(0, 1)]
  const CLOSING := [Free, Replace, Accept(0, 1), Finish(0)]

  /** A frame of two bytes of which each connection gets one; the write succeeds. */
  lemma FrameCanSplit()
    ensures Exec(IDLE, OPENING + CLOSING) == State([[(0, 1)], [(0, 2)]], [Writer([1, 2], 2, Succeeded)], true)
    ensures !OnOneWire(Exec(IDLE, OPENING + CLOSING), 0)
  {
    ExecAppend(IDLE, OPENING, CLOSING);
    FirstHalf();
    SecondHalf();
    OneByteOnly(State([[(0, 1)], [(0, 2)]], [Writer([1, 2], 2, Succeeded)], true));
  }

  lemma OneByteOnly(s: State)
    requires |s.wires| == 2 && s.wires[0] == [(0, 1)] && |s.writers| == 1 && s.writers[0].data == [1, 2]
    ensures !OnOneWire(s, 0)
  {
    assert [(0, 1)][..0] == [];
    assert Projection(s.wires[0], 0) == [1];
  }

  lemma TwoSteps(s: State, a: Action, b: Action, rest: seq<Action>)
    requires Enabled(s, a) && Enabled(Step(s, a), b)
    ensures Exec(s, [a, b] + rest) == Exec(Step(Step(s, a), b), rest)
  {
    assert ([a, b] + rest)[1..] == [b] + rest && ([b] + rest)[1..] == rest;
  }

  lemma TwoBytes()
    ensures var d: Bytes := [1, 2]; d[0..1] == [1] && d[1..2] == [2]
  {
    var d: Bytes := [1, 2];
    assert d[0..1] == [d[0]] && d[1..2] == [d[1]];
  }

  lemma FirstHalf()
    ensures Exec(IDLE, OPENING) == State([[(0, 1)]], [Writer([1, 2], 1, Sending)], true)
  {
    assert OPENING == [Replace, Start([1, 2])] + [Accept(0, 1)];
    TwoSteps(IDLE, Replace, Start([1, 2]), [Accept(0, 1)]);
    var s := Step(Step(IDLE, Replace), Start([1, 2]));
    assert s == State([[]], [Writer([1, 2], 0, Sending)], true);
    TwoBytes();
    assert [] + Tag(0, [1]) == [(0, 1)];
    assert [Accept(0, 1)][1..] == [];
  }

  lemma SecondHalf()
    ensures Exec(State([[(0, 1)]], [Writer([1, 2], 1, Sending)], true), CLOSING)
         == State([[(0, 1)], [(0, 2)]], [Writer([1, 2], 2, Succeeded)], true)
  {
    var s := State([[(0, 1)]], [Writer([1, 2], 1, Sending)], true);
    var t := State([[(0, 1)], []], [Writer([1, 2], 1, Sending)], true);
    assert CLOSING == [Free, Replace] + [Accept(0, 1), Finish(0)];
    TwoSteps(s, Free, Replace, [Accept(0, 1), Finish(0)]);
    assert Step(Step(s, Free), Replace) == t;
    TwoBytes();
    assert [] + Tag(0, [2]) == [(0, 2)];
    assert [Accept(0, 1), Finish(0)] + [] == [Accept(0, 1), Finish(0)];
    TwoSteps(t, Accept(0, 1), Finish(0), []);
  }

  // ---- Contiguous frames

  /** Every accept of the run takes the whole remainder. */
  predicate WholeAccepts(s: State, actions: seq<Action>)
    decreases |actions|
  {
    actions == [] ||
    (var a := actions[0];
     if !Enabled(s, a) then WholeAccepts(s, actions[1..])
     else
       && (a.Accept? ==> s.writers[a.w].total + a.count == |s.writers[a.w].data|)
       && WholeAccepts(Step(s, a), actions[1..]))
  }

  lemma {:induction false} WholeAcceptsPrefix(s: State, actions: seq<Action>, k: nat)
    requires k < |actions| && WholeAccepts(s, actions)
    ensures WholeAccepts(s, actions[..k])
    ensures var t := Exec(s, actions[..k]);
            Enabled(t, actions[k]) && actions[k].Accept? ==>
              t.writers[actions[k].w].total + actions[k].count == |t.writers[actions[k].w].data|
    decreases k
  {
    if k > 0 {
      var t := if Enabled(s, actions[0]) then Step(s, actions[0]) else s;
      WholeAcceptsPrefix(t, actions[1..], k - 1);
      assert actions[..k][1..] == actions[1..][..k - 1];
    }
  }

  predicate Known(writers: seq<Writer>, order: seq<nat>) { forall i :: 0 <= i < |order| ==> order[i] < |writers| }

  /** A wire as whole frames, one after the other, in this order of writers. */
  function Blocks(writers: seq<Writer>, order: seq<nat>): (wire: Tagged)
    requires Known(writers, order)
  {
    if order == [] then []
    else
      var k := |order| - 1;
      Blocks(writers, order[..k]) + Tag(order[k], writers[order[k]].data)
  }

  predicate BlockWire(wire: Tagged, writers: seq<Writer>, order: seq<nat>) {
    Known(writers, order) && wire == Blocks(writers, order)
  }

  ghost predicate Placed(s: State, orders: seq<seq<nat>>) {
    |orders| == |s.wires| && forall h :: 0 <= h < |orders| ==> BlockWire(s.wires[h], s.writers, orders[h])
  }

  /** The writers that have sent are named once each. */
  predicate Named(writers: seq<Writer>, named: seq<nat>) {
    && (forall i, j :: 0 <= i < j < |named| ==> named[i] != named[j])
    && (forall w :: 0 <= w < |writers| ==> writers[w].total == if w in named then |writers[w].data| else 0)
  }

  ghost predicate Contiguous(s: State, orders: seq<seq<nat>>) { Placed(s, orders) && Named(s.writers, Flatten(orders)) }

  lemma {:induction false} BlocksSame(a: seq<Writer>, b: seq<Writer>, order: seq<nat>)
    requires Known(a, order) && Known(b, order)
    requires forall i :: 0 <= i < |order| ==> a[order[i]].data == b[order[i]].data
    ensures Blocks(a, order) == Blocks(b, order)
    decreases |order|
  {
    if order != [] {
      BlocksSame(a, b, order[..|order| - 1]);
    }
  }

  lemma BlocksMore(s: State, orders: seq<seq<nat>>, writers: seq<Writer>, h: nat)
    requires Placed(s, orders) && h < |orders|
    requires |s.writers| <= |writers| && forall w :: 0 <= w < |s.writers| ==> writers[w].data == s.writers[w].data
    ensures BlockWire(s.wires[h], writers, orders[h])
  {
    assert BlockWire(s.wires[h], s.writers, orders[h]);
    BlocksSame(s.writers, writers, orders[h]);
  }

  lemma FlattenLast(orders: seq<seq<nat>>, more: seq<nat>)
    requires orders != []
    ensures var last := |orders| - 1; Flatten(orders[last := orders[last] + more]) == Flatten(orders) + more
  {
    var last := |orders| - 1;
    FlattenSnoc(orders[..last], orders[last]);
    FlattenSnoc(orders[..last], orders[last] + more);
    assert orders == orders[..last] + [orders[last]];
    assert orders[last := orders[last] + more] == orders[..last] + [orders[last] + more];
  }

  lemma {:induction false} KnownFlatten(writers: seq<Writer>, orders: seq<seq<nat>>, w: nat)
    requires forall h :: 0 <= h < |orders| ==> Known(writers, orders[h])
    requires w in Flatten(orders)
    ensures w < |writers|
    decreases |orders|
  {
    if w !in orders[0] {
      KnownFlatten(writers, orders[1..], w);
    }
  }

  /** The last wire gets one more whole frame. */
  lemma BlockAdded(s: State, w: nat, orders: seq<seq<nat>>, writers: seq<Writer>, wire: Tagged)
    requires Placed(s, orders) && orders != [] && w < |s.writers| == |writers|
    requires forall v :: 0 <= v < |s.writers| ==> writers[v].data == s.writers[v].data
    requires wire == s.wires[|orders| - 1] + Tag(w, s.writers[w].data)
    ensures BlockWire(wire, writers, orders[|orders| - 1] + [w])
  {
    var last := orders[|orders| - 1];
    BlocksMore(s, orders, writers, |orders| - 1);
    assert (last + [w])[..|last|] == last;
  }

  lemma AcceptNamed(s: State, w: nat, count: nat, named: seq<nat>)
    requires Enabled(s, Accept(w, count)) && s.writers[w].total + count == |s.writers[w].data|
    requires Named(s.writers, named)
    ensures s.writers[w].data[s.writers[w].total..s.writers[w].total + count] == s.writers[w].data
    ensures Named(Step(s, Accept(w, count)).writers, named + [w])
  {
    assert w !in named;
  }

  lemma AcceptBlocks(s: State, w: nat, count: nat, orders: seq<seq<nat>>, h: nat)
    requires Placed(s, orders) && Enabled(s, Accept(w, count)) && h < |orders|
    requires s.writers[w].data[s.writers[w].total..s.writers[w].total + count] == s.writers[w].data
    ensures var t := Step(s, Accept(w, count));
      BlockWire(t.wires[h], t.writers, if h == |orders| - 1 then orders[h] + [w] else orders[h])
  {
    var t := Step(s, Accept(w, count));
    if h == |orders| - 1 {
      BlockAdded(s, w, orders, t.writers, t.wires[h]);
    } else {
      BlocksMore(s, orders, t.writers, h);
    }
  }

  lemma AcceptPlaced(s: State, w: nat, count: nat, orders: seq<seq<nat>>)
    requires Placed(s, orders) && Enabled(s, Accept(w, count))
    requires s.writers[w].data[s.writers[w].total..s.writers[w].total + count] == s.writers[w].data
    ensures var last := |orders| - 1; Placed(Step(s, Accept(w, count)), orders[last := orders[last] + [w]])
  {
    forall h | 0 <= h < |orders|
      ensures var t := Step(s, Accept(w, count));
        BlockWire(t.wires[h], t.writers, if h == |orders| - 1 then orders[h] + [w] else orders[h])
    {
      AcceptBlocks(s, w, count, orders, h);
    }
  }

  lemma AcceptContiguous(s: State, w: nat, count: nat, orders: seq<seq<nat>>)
    requires Contiguous(s, orders) && Enabled(s, Accept(w, count))
    requires s.writers[w].total + count == |s.writers[w].data|
    ensures var last := |orders| - 1; Contiguous(Step(s, Accept(w, count)), orders[last := orders[last] + [w]])
  {
    AcceptNamed(s, w, count, Flatten(orders));
    FlattenLast(orders, [w]);
    AcceptPlaced(s, w, count, orders);
  }

  lemma ReplaceContiguous(s: State, orders: seq<seq<nat>>)
    requires Contiguous(s, orders) && Enabled(s, Replace)
    ensures Contiguous(Step(s, Replace), orders + [[]])
  {
    FlattenSnoc(orders, []);
    assert Flatten(orders) + [] == Flatten(orders);
  }

  lemma OtherContiguous(s: State, a: Action, orders: seq<seq<nat>>)
    requires Contiguous(s, orders) && Enabled(s, a) && !a.Accept? && !a.Replace?
    ensures Contiguous(Step(s, a), orders)
  {
    var t := Step(s, a);
    forall h | 0 <= h < |orders| ensures BlockWire(t.wires[h], t.writers, orders[h]) {
      BlocksMore(s, orders, t.writers, h);
    }
    StrangerUnnamed(s, orders);
  }

  lemma StrangerUnnamed(s: State, orders: seq<seq<nat>>)
    requires Placed(s, orders)
    ensures |s.writers| !in Flatten(orders)
  {
    forall h | 0 <= h < |orders| ensures Known(s.writers, orders[h]) {
      assert BlockWire(s.wires[h], s.writers, orders[h]);
    }
    if |s.writers| in Flatten(orders) {
      KnownFlatten(s.writers, orders, |s.writers|);
    }
  }

  lemma StepContiguous(s: State, a: Action, orders: seq<seq<nat>>) returns (next: seq<seq<nat>>)
    requires Contiguous(s, orders) && Enabled(s, a)
    requires a.Accept? ==> s.writers[a.w].total + a.count == |s.writers[a.w].data|
    ensures Contiguous(Step(s, a), next)
  {
    if a.Accept? {
      next := orders[|orders| - 1 := orders[|orders| - 1] + [a.w]];
      AcceptContiguous(s, a.w, a.count, orders);
    } else if a.Replace? {
      next := orders + [[]];
      ReplaceContiguous(s, orders);
    } else {
      next := orders;
      OtherContiguous(s, a, orders);
    }
  }

  /** When each accept takes the full remainder, every wire is whole frames in the
      order of those accepts: no frame is split by another or over two handles. */
  lemma {:induction false} WholeAcceptsAreContiguous(actions: seq<Action>)
    requires WholeAccepts(IDLE, actions)
    ensures exists orders :: Contiguous(Exec(IDLE, actions), orders)
    decreases |actions|
  {
    if actions == [] {
      var none: seq<seq<nat>> := [];
      assert Exec(IDLE, actions) == IDLE && Contiguous(IDLE, none);
    } else {
      var k := |actions| - 1;
      WholeAcceptsPrefix(IDLE, actions, k);
      WholeAcceptsAreContiguous(actions[..k]);
      ExecLast(IDLE, actions);
      var s := Exec(IDLE, actions[..k]);
      var orders :| Contiguous(s, orders);
      if Enabled(s, actions[k]) {
        var next := StepContiguous(s, actions[k], orders);
      }
    }
  }

  // ---- When a write ends, and how

  /** The writer got an error from libcurl, or found m_curl null. */
  predicate Breaks(a: Action, w: nat) { (a.Fail? || a.FindGone?) && a.w == w }

  predicate Ends(a: Action, w: nat) { a.Finish? && a.w == w }

  ghost predicate Broke(actions: seq<Action>, w: nat) {
    exists i: nat :: Happens(actions, i) && Breaks(actions[i], w)
  }

  ghost predicate Ended(actions: seq<Action>, w: nat) {
    exists i: nat :: Happens(actions, i) && Ends(actions[i], w)
  }

  lemma HappensEarlier(actions: seq<Action>, i: nat)
    requires i + 1 < |actions|
    ensures Happens(actions, i) <==> Happens(actions[..|actions| - 1], i)
    ensures actions[..|actions| - 1][i] == actions[i]
  {
    assert actions[..|actions| - 1][..i] == actions[..i];
  }

  lemma BrokeLast(actions: seq<Action>, w: nat)
    requires actions != []
    ensures var k := |actions| - 1;
      Broke(actions, w) <==> Broke(actions[..k], w) || (Happens(actions, k) && Breaks(actions[k], w))
  {
    var k := |actions| - 1;
    if Broke(actions, w) {
      var i: nat :| Happens(actions, i) && Breaks(actions[i], w);
      if i < k {
        HappensEarlier(actions, i);
      }
    }
    if Broke(actions[..k], w) {
      var i: nat :| Happens(actions[..k], i) && Breaks(actions[..k][i], w);
      HappensEarlier(actions, i);
    }
  }

  lemma EndedLast(actions: seq<Action>, w: nat)
    requires actions != []
    ensures var k := |actions| - 1;
      Ended(actions, w) <==> Ended(actions[..k], w) || (Happens(actions, k) && Ends(actions[k], w))
  {
    var k := |actions| - 1;
    if Ended(actions, w) {
      var i: nat :| Happens(actions, i) && Ends(actions[i], w);
      if i < k {
        HappensEarlier(actions, i);
      }
    }
    if Ended(actions[..k], w) {
      var i: nat :| Happens(actions[..k], i) && Ends(actions[..k][i], w);
      HappensEarlier(actions, i);
    }
  }

  predicate Says(s: State, w: nat, broke: bool, ended: bool) {
    if w < |s.writers| then (s.writers[w].status == Failed <==> broke) && (s.writers[w].status == Succeeded <==> ended)
    else !broke && !ended
  }

  lemma StepSays(s: State, a: Action, w: nat, broke: bool, ended: bool)
    requires Enabled(s, a) && Says(s, w, broke, ended)
    ensures Says(Step(s, a), w, broke || Breaks(a, w), ended || Ends(a, w))
  {
  }

  /** In every interleaving: a write has failed if and only if libcurl reported an error
      to it or it found m_curl null, and has returned true if and only if its loop
      ended. Being told to try again ends nothing. */
  lemma {:induction false} FailedExactly(actions: seq<Action>, w: nat)
    ensures Says(Exec(IDLE, actions), w, Broke(actions, w), Ended(actions, w))
    decreases |actions|
  {
    if actions != [] {
      var k := |actions| - 1;
      FailedExactly(actions[..k], w);
      BrokeLast(actions, w);
      EndedLast(actions, w);
      ExecLast(IDLE, actions);
      if Happens(actions, k) {
        StepSays(Exec(IDLE, actions[..k]), actions[k], w, Broke(actions[..k], w), Ended(actions[..k], w));
      }
    }
  }

  // ---- The loop of one writer

  datatype Answer = Ok(sent: nat) | TryAgain | Error

  // What happens around one send: what others did since, and libcurl's answer.
  datatype Turn = Turn(others: seq<Action>, answer: Answer)

  predicate Concerns(a: Action, w: nat) {
    (a.Accept? || a.Again? || a.Fail? || a.FindGone? || a.Finish?) && a.w == w
  }

  predicate Foreign(turns: seq<Turn>, w: nat) {
    forall i, j :: 0 <= i < |turns| && 0 <= j < |turns[i].others| ==> !Concerns(turns[i].others[j], w)
  }

  lemma {:induction false} OthersKeepWriter(s: State, others: seq<Action>, w: nat)
    requires w < |s.writers|
    requires forall j :: 0 <= j < |others| ==> !Concerns(others[j], w)
    ensures w < |Exec(s, others).writers| && Exec(s, others).writers[w] == s.writers[w]
    decreases |others|
  {
    if others != [] {
      OthersKeepWriter(if Enabled(s, others[0]) then Step(s, others[0]) else s, others[1..], w);
    }
  }

  /** The bytes libcurl took in these answers. */
  function Agreed(turns: seq<Turn>): (n: nat) {
    if turns == [] then 0
    else
      var last := turns[|turns| - 1].answer;
      Agreed(turns[..|turns| - 1]) + if last.Ok? then last.sent else 0
  }

  function AtMost(n: nat, limit: nat): (r: nat) { if n <= limit then n else limit }

  /** The run of the machine in which the writer's own actions follow the others'. */
  function Rounds(turns: seq<Turn>, own: seq<Action>): (actions: seq<Action>)
    requires |own| == |turns|
  {
    if turns == [] then []
    else
      var k := |turns| - 1;
      Rounds(turns[..k], own[..k]) + turns[k].others + [own[k]]
  }

  lemma RoundsNext(turns: seq<Turn>, own: seq<Action>, turn: Turn, a: Action)
    requires |own| == |turns|
    ensures Rounds(turns + [turn], own + [a]) == Rounds(turns, own) + turn.others + [a]
  {
    assert (turns + [turn])[..|turns|] == turns && (own + [a])[..|own|] == own;
  }

  /** The state in which turn k gets libcurl's answer. */
  function Asked(s: State, data: Bytes, turns: seq<Turn>, own: seq<Action>, k: nat): (r: State)
    requires k < |turns| && k <= |own|
  {
    Exec(Exec(s, [Start(data)] + Rounds(turns[..k], own[..k])), turns[k].others)
  }

  /** A turn ends the write with false: an error, or m_curl was null. */
  predicate GivesUp(s: State, answer: Answer) { !Usable(s) || answer.Error? }

  /** The first turns as they went: only the last of them may have ended the write. */
  ghost predicate Went(s: State, data: Bytes, turns: seq<Turn>, own: seq<Action>, failed: bool) {
    && |own| <= |turns| && (failed ==> own != [])
    && (forall k :: 0 <= k < |own| ==> Concerns(own[k], |s.writers|))
    && (forall k :: 0 <= k < |own| ==>
          (GivesUp(Asked(s, data, turns, own, k), turns[k].answer) <==> failed && k == |own| - 1))
  }

  lemma WentNext(s: State, data: Bytes, turns: seq<Turn>, own: seq<Action>, a: Action)
    requires Went(s, data, turns, own, false) && |own| < |turns| && Concerns(a, |s.writers|)
    ensures Asked(s, data, turns, own + [a], |own|) == Asked(s, data, turns, own, |own|)
    ensures Went(s, data, turns, own + [a], GivesUp(Asked(s, data, turns, own, |own|), turns[|own|].answer))
  {
    var more := own + [a];
    forall k | 0 <= k <= |own| ensures Asked(s, data, turns, more, k) == Asked(s, data, turns, own, k) {
      assert more[..k] == own[..k];
    }
  }

  /** The run so far, one turn longer. */
  lemma RunNext(s: State, data: Bytes, turns: seq<Turn>, own: seq<Action>, a: Action)
    requires |own| < |turns|
    requires Enabled(Asked(s, data, turns, own, |own|), a)
    ensures Exec(s, [Start(data)] + Rounds(turns[..|own| + 1], own + [a]))
         == Step(Asked(s, data, turns, own, |own|), a)
    ensures Asked(s, data, turns, own, |own|)
         == Exec(Exec(s, [Start(data)] + Rounds(turns[..|own|], own)), turns[|own|].others)
  {
    var i, others := |own|, turns[|own|].others;
    var run := [Start(data)] + Rounds(turns[..i], own);
    assert own[..i] == own && turns[..i + 1] == turns[..i] + [turns[i]];
    RoundsNext(turns[..i], own, turns[i], a);
    Regroup([Start(data)], Rounds(turns[..i], own) + others, [a]);
    Regroup([Start(data)], Rounds(turns[..i], own), others);
    ExecAppend(s, run, others);
    ExecSnoc(s, run + others, a);
  }

  lemma AgreedNext(turns: seq<Turn>, i: nat)
    requires i < |turns|
    ensures Agreed(turns[..i + 1]) == Agreed(turns[..i]) + if turns[i].answer.Ok? then turns[i].answer.sent else 0
  {
    assert turns[..i + 1][..i] == turns[..i];
  }

  /** A pass of the loop: own is what the writer did in the turns it has taken. */
  ghost predicate Underway(s: State, data: Bytes, turns: seq<Turn>, own: seq<Action>, now: State) {
    && Went(s, data, turns, own, false)
    && now == Exec(s, [Start(data)] + Rounds(turns[..|own|], own))
    && |s.writers| < |now.writers|
    && var mine := now.writers[|s.writers|];
       mine.data == data && mine.status == Sending && mine.total == AtMost(Agreed(turns[..|own|]), |data|)
  }

  lemma StartUnderway(s: State, data: Bytes, turns: seq<Turn>)
    ensures Underway(s, data, turns, [], Step(s, Start(data)))
  {
    ExecSnoc(s, [], Start(data));
    assert [] + [Start(data)] == [Start(data)] + Rounds([], []) && turns[..0] == [];
  }

  /** What one pass leaves, when it did not give up and when it did. */
  predicate Passed(x: Writer, y: Writer, next: Action, answer: Answer) {
    && y.data == x.data && y.status == (if next.FindGone? || next.Fail? then Failed else Sending)
    && y.total == if next.FindGone? || !answer.Ok? then x.total else AtMost(x.total + answer.sent, |x.data|)
  }

  lemma PassUnderway(s: State, data: Bytes, turns: seq<Turn>, own: seq<Action>, asked: State, next: Action, t: State)
    requires Went(s, data, turns, own, false) && |own| < |turns| && Concerns(next, |s.writers|)
    requires asked == Exec(Exec(s, [Start(data)] + Rounds(turns[..|own|], own)), turns[|own|].others)
    requires Enabled(asked, next) && t == Step(asked, next)
    requires GivesUp(asked, turns[|own|].answer) <==> next.FindGone? || next.Fail?
    ensures Went(s, data, turns, own + [next], next.FindGone? || next.Fail?)
    ensures t == Exec(s, [Start(data)] + Rounds(turns[..|own| + 1], own + [next]))
  {
    assert own[..|own|] == own;
    assert asked == Asked(s, data, turns, own, |own|);
    RunNext(s, data, turns, own, next);
    WentNext(s, data, turns, own, next);
  }

  lemma PassCounts(turns: seq<Turn>, i: nat, x: Writer, y: Writer, next: Action)
    requires i < |turns| && x.total == AtMost(Agreed(turns[..i]), |x.data|) && Passed(x, y, next, turns[i].answer)
    ensures y.total == AtMost(Agreed(if next.FindGone? || next.Fail? then turns[..i] else turns[..i + 1]), |x.data|)
         || (next.Fail? && turns[i].answer.Ok?)
  {
    AgreedNext(turns, i);
  }

  /** What tunnelWrite leaves. It sends what libcurl takes, and gives up in the first turn
      that brings an error or finds m_curl null, and in no other: TryAgain never ends it. */
  ghost predicate Returned(s: State, data: Bytes, turns: seq<Turn>, own: seq<Action>, result: Option<bool>,
                           now: State)
  {
    && Went(s, data, turns, own, result == Some(false)) && (result.None? ==> |own| == |turns|)
    && (var run := [Start(data)] + Rounds(turns[..|own|], own);
        now == Exec(s, if result == Some(true) then run + [Finish(|s.writers|)] else run))
    && |s.writers| < |now.writers|
    && var mine := now.writers[|s.writers|];
       && mine.data == data
       && mine.status == (if result.None? then Sending else if result.value then Succeeded else Failed)
       && mine.total == AtMost(Agreed(if result == Some(false) then turns[..|own| - 1] else turns[..|own|]), |data|)
       && (mine.total == |data| <==> result == Some(true))
  }

  lemma RanOut(s: State, data: Bytes, turns: seq<Turn>, own: seq<Action>, now: State)
    requires Underway(s, data, turns, own, now) && |own| == |turns| && now.writers[|s.writers|].total < |data|
    ensures Returned(s, data, turns, own, None, now)
  {
  }

  lemma SentAll(s: State, data: Bytes, turns: seq<Turn>, own: seq<Action>, now: State)
    requires Underway(s, data, turns, own, now) && now.writers[|s.writers|].total >= |data|
    ensures Enabled(now, Finish(|s.writers|))
    ensures Returned(s, data, turns, own, Some(true), Step(now, Finish(|s.writers|)))
  {
    ExecSnoc(s, [Start(data)] + Rounds(turns[..|own|], own), Finish(|s.writers|));
  }

  class Tunnel {
    var state: State

    constructor ()
      ensures state == IDLE
    {
      state := IDLE;
    }

    /** tunnelWrite while the turns last: None when they ran out before the loop ended.
        Every state it passes through is a step of the machine above. */
    method TunnelWrite(data: Bytes, turns: seq<Turn>) returns (result: Option<bool>, ghost own: seq<Action>)
      requires Foreign(turns, |state.writers|)
      modifies this
      ensures Returned(old(state), data, turns, own, result, state)
    {
      var w := |state.writers|;
      own := [];
      StartUnderway(state, data, turns);
      state := Step(state, Start(data));
      var i := 0;
      while state.writers[w].total < |data|
        invariant i == |own| <= |turns| && Underway(old(state), data, turns, own, state)
        decreases |turns| - i
      {
        if i == |turns| {
          RanOut(old(state), data, turns, own, state);
          return None, own;
        }
        ghost var now := state;
        var next := Ask(w, turns[i]);
        PassUnderway(old(state), data, turns, own, Exec(now, turns[i].others), next, state);
        PassCounts(turns, i, now.writers[w], state.writers[w], next);
        own := own + [next];
        i := i + 1;
        if next.FindGone? || next.Fail? {
          return Some(false), own;
        }
      }
      SentAll(old(state), data, turns, own, state);
      state := Step(state, Finish(w));
      return Some(true), own;
    }

    /** One pass of the loop, after what others did meanwhile. */
    method Ask(w: nat, turn: Turn) returns (next: Action)
      requires CanSend(state, w) && forall j :: 0 <= j < |turn.others| ==> !Concerns(turn.others[j], w)
      modifies this
      ensures var asked := Exec(old(state), turn.others);
        && Concerns(next, w) && Enabled(asked, next) && state == Step(asked, next)
        && (GivesUp(asked, turn.answer) <==> next.FindGone? || next.Fail?)
        && (next.Fail? ==> turn.answer.Error?)
      ensures w < |state.writers| && Passed(old(state).writers[w], state.writers[w], next, turn.answer)
    {
      OthersKeepWriter(state, turn.others, w);
      state := Exec(state, turn.others);
      var left := |state.writers[w].data| - state.writers[w].total;
      if !Usable(state) {
        next := FindGone(w);
      } else {
        next := match turn.answer
          case Ok(n) => Accept(w, AtMost(n, left))
          case TryAgain => Again(w)
          case Error => Fail(w);
      }
      state := Step(state, next);
    }
  }
}
