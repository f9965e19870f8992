// Frames of concurrent writers on the wire (src/CurlTransport.cpp:410-465): the mutex is
// free between two accepts of a write, so frames can mix. When they do not, and what
// the other end then decodes.
module FrameOrders {
  import opened Prelude
  import opened ByteBits
  import opened WsFrames
  import opened TunnelWriting
  import WsReceiver

  // ---- What comes between the accepts of a writer

  /** Action k puts a stranger's bytes on the wire, or a new handle in m_curl. */
  predicate Disturbs(actions: seq<Action>, k: nat, w: nat) {
    || Replaces(actions, k)
    || (Happens(actions, k) && actions[k].Accept? && actions[k].w != w && actions[k].count > 0)
  }

  ghost predicate HasSent(actions: seq<Action>, w: nat) { exists i: nat :: Sends(actions, i, w) }

  ghost predicate Buried(actions: seq<Action>, w: nat) {
    exists i: nat, k: nat :: i < k && Sends(actions, i, w) && Disturbs(actions, k, w)
  }

  /** Some accept of the writer comes before such an action, and some accept behind it. */
  ghost predicate Interrupted(actions: seq<Action>, w: nat) {
    exists i: nat, k: nat, j: nat ::
      i < k < j && Sends(actions, i, w) && Disturbs(actions, k, w) && Sends(actions, j, w)
  }

  lemma Earlier(actions: seq<Action>, i: nat, w: nat)
    requires i + 1 < |actions|
    ensures var before := actions[..|actions| - 1];
      && (Sends(actions, i, w) <==> Sends(before, i, w)) && (Disturbs(actions, i, w) <==> Disturbs(before, i, w))
  {
    var before := actions[..|actions| - 1];
    assert before[..i] == actions[..i] && before[i] == actions[i];
  }

  lemma HasSentLast(actions: seq<Action>, w: nat)
    requires actions != []
    ensures var k := |actions| - 1; HasSent(actions, w) <==> HasSent(actions[..k], w) || Sends(actions, k, w)
  {
    var k := |actions| - 1;
    if HasSent(actions, w) && !Sends(actions, k, w) {
      var i: nat :| Sends(actions, i, w);
      Earlier(actions, i, w);
    }
    if HasSent(actions[..k], w) {
      var i: nat :| Sends(actions[..k], i, w);
      Earlier(actions, i, w);
    }
  }

  lemma BuriedLast(actions: seq<Action>, w: nat)
    requires actions != []
    ensures var k := |actions| - 1;
      Buried(actions, w) <==> Buried(actions[..k], w) || (HasSent(actions[..k], w) && Disturbs(actions, k, w))
  {
    var last := |actions| - 1;
    if Buried(actions, w) {
      var i: nat, k: nat :| i < k && Sends(actions, i, w) && Disturbs(actions, k, w);
      Earlier(actions, i, w);
      if k < last {
        Earlier(actions, k, w);
      }
    }
    if Buried(actions[..last], w) {
      var i: nat, k: nat :| i < k && Sends(actions[..last], i, w) && Disturbs(actions[..last], k, w);
      Earlier(actions, i, w);
      Earlier(actions, k, w);
    }
    if HasSent(actions[..last], w) {
      var i: nat :| Sends(actions[..last], i, w);
      Earlier(actions, i, w);
    }
  }

  lemma InterruptedEarlier(actions: seq<Action>, w: nat, i: nat, k: nat, j: nat)
    requires i < k < j < |actions| && Sends(actions, i, w) && Disturbs(actions, k, w) && Sends(actions, j, w)
    ensures var last := |actions| - 1;
      if j < last then Interrupted(actions[..last], w) else Buried(actions[..last], w)
  {
    Earlier(actions, i, w);
    Earlier(actions, k, w);
    if j < |actions| - 1 {
      Earlier(actions, j, w);
    }
  }

  lemma InterruptedStays(actions: seq<Action>, w: nat)
    requires actions != [] && Interrupted(actions[..|actions| - 1], w)
    ensures Interrupted(actions, w)
  {
    var before := actions[..|actions| - 1];
    var i: nat, k: nat, j: nat :|
      i < k < j && Sends(before, i, w) && Disturbs(before, k, w) && Sends(before, j, w);
    Earlier(actions, i, w);
    Earlier(actions, k, w);
    Earlier(actions, j, w);
  }

  lemma InterruptedNow(actions: seq<Action>, w: nat)
    requires actions != [] && Buried(actions[..|actions| - 1], w) && Sends(actions, |actions| - 1, w)
    ensures Interrupted(actions, w)
  {
    var before := actions[..|actions| - 1];
    var i: nat, k: nat :| i < k && Sends(before, i, w) && Disturbs(before, k, w);
    Earlier(actions, i, w);
    Earlier(actions, k, w);
  }

  lemma InterruptedLast(actions: seq<Action>, w: nat)
    requires actions != []
    ensures var k := |actions| - 1;
      Interrupted(actions, w) <==> Interrupted(actions[..k], w) || (Buried(actions[..k], w) && Sends(actions, k, w))
  {
    var last := |actions| - 1;
    if Interrupted(actions, w) {
      var i: nat, k: nat, j: nat :|
        i < k < j && Sends(actions, i, w) && Disturbs(actions, k, w) && Sends(actions, j, w);
      InterruptedEarlier(actions, w, i, k, j);
    }
    if Interrupted(actions[..last], w) {
      InterruptedStays(actions, w);
    }
    if Buried(actions[..last], w) && Sends(actions, last, w) {
      InterruptedNow(actions, w);
    }
  }

  // ---- Where the bytes of a writer are

  predicate SliceAt(wire: Tagged, p: nat, t: Tagged) { p + |t| <= |wire| && wire[p..p + |t|] == t }

  /** What the writer has sent so far. */
  function Part(s: State, w: nat): (t: Tagged)
    requires w < |s.writers| && WriterOk(s, w)
  {
    Tag(w, s.writers[w].data[..s.writers[w].total])
  }

  predicate PieceAt(s: State, w: nat, h: nat, p: nat)
    requires w < |s.writers| && WriterOk(s, w)
  {
    h < |s.wires| && SliceAt(s.wires[h], p, Part(s, w))
  }

  /** All of it is in one place on one wire, with nothing in between. */
  ghost predicate InOnePiece(s: State, w: nat)
    requires w < |s.writers| && WriterOk(s, w)
  {
    s.writers[w].total == 0 || exists h: nat, p: nat :: PieceAt(s, w, h, p)
  }

  predicate AtEnd(s: State, w: nat)
    requires w < |s.writers| && WriterOk(s, w)
  {
    && s.wires != []
    && var last := s.wires[|s.wires| - 1];
       s.writers[w].total <= |last| && SliceAt(last, |last| - s.writers[w].total, Part(s, w))
  }

  predicate Covered(s: State, w: nat) {
    && s.wires != []
    && var last := s.wires[|s.wires| - 1];
       last == [] || last[|last| - 1].0 != w
  }

  lemma {:induction false} ProjectionConcat(a: Tagged, b: Tagged, w: nat)
    ensures Projection(a + b, w) == Projection(a, w) + Projection(b, w)
    decreases |b|
  {
    if b == [] {
      assert a + b == a;
    } else {
      var k := |b| - 1;
      ProjectionConcat(a, b[..k], w);
      assert (a + b)[..|a + b| - 1] == a + b[..k];
      Regroup(Projection(a, w), Projection(b[..k], w), if b[k].0 == w then [b[k].1] else []);
    }
  }

  lemma ProjectionOfTag(w: nat, data: Bytes)
    ensures Projection(Tag(w, data), w) == data
  {
    ProjectionAppend([], w, data, w);
    assert [] + Tag(w, data) == Tag(w, data);
  }

  lemma SliceProjection(wire: Tagged, p: nat, w: nat, data: Bytes)
    requires SliceAt(wire, p, Tag(w, data))
    ensures Projection(wire, w) == Projection(wire[..p], w) + data + Projection(wire[p + |data|..], w)
  {
    var front, back := wire[..p], wire[p + |data|..];
    assert wire == front + Tag(w, data) + back;
    ProjectionConcat(front + Tag(w, data), back, w);
    ProjectionConcat(front, Tag(w, data), w);
    ProjectionOfTag(w, data);
  }

  /** No wire holds more of a writer than it has sent. */
  lemma SliceFits(s: State, w: nat, h: nat, p: nat, data: Bytes)
    requires w < |s.writers| && WriterOk(s, w) && h < |s.wires| && SliceAt(s.wires[h], p, Tag(w, data))
    ensures |data| <= s.writers[w].total
  {
    SliceProjection(s.wires[h], p, w, data);
    CarriedAlone(s.wires, w, h);
  }

  // ---- What an action does to that

  /** The writer's place, as its history says. */
  ghost predicate Shape(s: State, w: nat, sent: bool, buried: bool, broken: bool) {
    && (broken ==> buried) && (buried ==> sent)
    && (w >= |s.writers| ==> !sent)
    && (w < |s.writers| ==>
          && WriterOk(s, w) && (sent <==> s.writers[w].total > 0)
          && (sent && !buried ==> AtEnd(s, w))
          && (buried && !broken ==> Covered(s, w))
          && (InOnePiece(s, w) <==> !broken))
  }

  predicate Own(a: Action, w: nat) { a.Accept? && a.w == w && a.count > 0 }

  predicate Strange(a: Action, w: nat) { a.Replace? || (a.Accept? && a.w != w && a.count > 0) }

  lemma TagConcat(w: nat, a: Bytes, b: Bytes)
    ensures Tag(w, a + b) == Tag(w, a) + Tag(w, b)
  {
  }

  lemma PartGrows(s: State, w: nat, count: nat)
    requires Enabled(s, Accept(w, count)) && WriterOk(s, w) && WriterOk(Step(s, Accept(w, count)), w)
    ensures var x, t := s.writers[w], Step(s, Accept(w, count));
      Part(t, w) == Part(s, w) + Tag(w, x.data[x.total..x.total + count])
  {
    var x := s.writers[w];
    SliceJoin(x.data, x.total, x.total + count);
    TagConcat(w, x.data[..x.total], x.data[x.total..x.total + count]);
  }

  lemma EndGrows(wire: Tagged, part: Tagged, more: Tagged)
    requires |part| <= |wire| && SliceAt(wire, |wire| - |part|, part)
    ensures SliceAt(wire + more, |wire| - |part|, part + more)
  {
    assert wire == wire[..|wire| - |part|] + part;
  }

  lemma OwnAtEnd(s: State, w: nat, count: nat)
    requires Enabled(s, Accept(w, count)) && WriterOk(s, w) && WriterOk(Step(s, Accept(w, count)), w)
    requires s.writers[w].total == 0 || AtEnd(s, w)
    ensures var t := Step(s, Accept(w, count)); AtEnd(t, w) && InOnePiece(t, w)
  {
    var t, last, x := Step(s, Accept(w, count)), |s.wires| - 1, s.writers[w];
    var wire, part, more := s.wires[last], Part(s, w), Tag(w, x.data[x.total..x.total + count]);
    PartGrows(s, w, count);
    assert t.wires[last] == wire + more && Part(t, w) == part + more;
    EndGrows(wire, part, more);
    assert PieceAt(t, w, last, |wire| - |part|);
  }

  lemma PrefixSlice(wire: Tagged, end: Tagged, p: nat, part: Tagged, more: Tagged)
    requires |end| <= |more| && SliceAt(wire + end, p, part + more)
    ensures SliceAt(wire, p, part)
  {
    var whole := (wire + end)[p..p + |part + more|];
    assert whole[..|part|] == part;
    assert wire[p..p + |part|] == whole[..|part|];
  }

  lemma PieceEarlier(s: State, w: nat, count: nat, h: nat, p: nat)
    requires Enabled(s, Accept(w, count)) && WriterOk(s, w) && WriterOk(Step(s, Accept(w, count)), w)
    requires PieceAt(Step(s, Accept(w, count)), w, h, p)
    ensures PieceAt(s, w, h, p)
  {
    var t, x := Step(s, Accept(w, count)), s.writers[w];
    var more := Tag(w, x.data[x.total..x.total + count]);
    PartGrows(s, w, count);
    assert t.wires[h] == s.wires[h] + if h == |s.wires| - 1 then more else [];
    PrefixSlice(s.wires[h], if h == |s.wires| - 1 then more else [], p, Part(s, w), more);
  }

  lemma SliceTags(wire: Tagged, p: nat, w: nat, data: Bytes, i: nat)
    requires SliceAt(wire, p, Tag(w, data)) && p <= i < p + |data|
    ensures wire[i].0 == w
  {
    assert wire[i] == wire[p..p + |data|][i - p];
  }

  lemma CoveredBreaks(s: State, w: nat, count: nat, h: nat, p: nat)
    requires Enabled(s, Accept(w, count)) && count > 0 && WriterOk(s, w) && WriterOk(Step(s, Accept(w, count)), w)
    requires s.writers[w].total > 0 && Covered(s, w)
    ensures !PieceAt(Step(s, Accept(w, count)), w, h, p)
  {
    var t, last := Step(s, Accept(w, count)), |s.wires| - 1;
    var data := t.writers[w].data[..t.writers[w].total];
    if PieceAt(t, w, h, p) {
      var wire := s.wires[h];
      if p + |data| <= |wire| {
        assert wire[p..p + |data|] == t.wires[h][p..p + |data|];
        SliceFits(s, w, h, p, data);
      } else {
        assert h == last && p < |wire|;
        SliceTags(t.wires[h], p, w, data, |wire| - 1);
      }
      assert false;
    }
  }

  lemma OwnShape(s: State, a: Action, w: nat, sent: bool, buried: bool, broken: bool)
    requires Conserved(s) && Enabled(s, a) && Own(a, w) && Shape(s, w, sent, buried, broken)
    ensures Shape(Step(s, a), w, true, buried, broken || buried)
  {
    var t := Step(s, a);
    StepConserves(s, a);
    assert WriterOk(t, w);
    if !buried {
      OwnAtEnd(s, w, a.count);
    } else if broken {
      forall h: nat, p: nat ensures !PieceAt(t, w, h, p) {
        if PieceAt(t, w, h, p) {
          PieceEarlier(s, w, a.count, h, p);
        }
      }
    } else {
      forall h: nat, p: nat ensures !PieceAt(t, w, h, p) {
        CoveredBreaks(s, w, a.count, h, p);
      }
    }
  }

  /** What another's accept or a new handle leaves alone. */
  lemma StrangeKeepsPiece(s: State, a: Action, w: nat, h: nat, p: nat)
    requires Enabled(s, a) && Strange(a, w) && w < |s.writers| && s.writers[w].total > 0
    requires WriterOk(s, w) && WriterOk(Step(s, a), w)
    ensures PieceAt(s, w, h, p) <==> PieceAt(Step(s, a), w, h, p)
  {
    var t, n := Step(s, a), s.writers[w].total;
    assert Part(t, w) == Part(s, w) && |Part(s, w)| == n;
    if h < |s.wires| {
      assert t.wires[h][..|s.wires[h]|] == s.wires[h];
      if p + n <= |s.wires[h]| {
        assert t.wires[h][p..p + n] == s.wires[h][p..p + n];
      } else if p + n <= |t.wires[h]| {
        assert t.wires[h][p..p + n][n - 1] == t.wires[h][p + n - 1];
        assert Part(s, w)[n - 1].0 == w;
      }
    }
  }

  lemma StrangeCovers(s: State, a: Action, w: nat)
    requires Enabled(s, a) && Strange(a, w)
    ensures Covered(Step(s, a), w)
  {
  }

  lemma StrangeShape(s: State, a: Action, w: nat, sent: bool, buried: bool, broken: bool)
    requires Conserved(s) && Enabled(s, a) && Strange(a, w) && Shape(s, w, sent, buried, broken)
    ensures Shape(Step(s, a), w, sent, buried || sent, broken)
  {
    var t := Step(s, a);
    StepConserves(s, a);
    StrangeCovers(s, a, w);
    if w < |s.writers| {
      assert WriterOk(t, w);
      if sent {
        forall h: nat, p: nat ensures PieceAt(s, w, h, p) <==> PieceAt(t, w, h, p) {
          StrangeKeepsPiece(s, a, w, h, p);
        }
      }
    }
  }

  lemma QuietWires(s: State, a: Action, w: nat)
    requires Enabled(s, a) && !Own(a, w) && !Strange(a, w)
    ensures Step(s, a).wires == s.wires
    ensures w < |s.writers| ==>
      Step(s, a).writers[w].data == s.writers[w].data && Step(s, a).writers[w].total == s.writers[w].total
  {
    if a.Accept? {
      var last := |s.wires| - 1;
      assert s.wires[last] + [] == s.wires[last];
    }
  }

  lemma QuietShape(s: State, a: Action, w: nat, sent: bool, buried: bool, broken: bool)
    requires Conserved(s) && Enabled(s, a) && !Own(a, w) && !Strange(a, w) && Shape(s, w, sent, buried, broken)
    ensures Shape(Step(s, a), w, sent, buried, broken)
  {
    var t := Step(s, a);
    StepConserves(s, a);
    QuietWires(s, a, w);
    if w < |s.writers| {
      assert WriterOk(t, w) && Part(t, w) == Part(s, w);
      forall h: nat, p: nat ensures PieceAt(s, w, h, p) <==> PieceAt(t, w, h, p) {
      }
    } else if w < |t.writers| {
      assert WriterOk(t, w) && t.writers[w].total == 0;
    }
  }

  lemma {:induction false} HistoryShape(actions: seq<Action>, w: nat)
    ensures Shape(Exec(IDLE, actions), w, HasSent(actions, w), Buried(actions, w), Interrupted(actions, w))
    decreases |actions|
  {
    if actions != [] {
      var k := |actions| - 1;
      var before, a := actions[..k], actions[k];
      var s := Exec(IDLE, before);
      HistoryShape(before, w);
      WriteConservation(before);
      HasSentLast(actions, w);
      BuriedLast(actions, w);
      InterruptedLast(actions, w);
      ExecLast(IDLE, actions);
      var sent, buried, broken := HasSent(before, w), Buried(before, w), Interrupted(before, w);
      if !Enabled(s, a) {
      } else if Own(a, w) {
        OwnShape(s, a, w, sent, buried, broken);
      } else if Strange(a, w) {
        StrangeShape(s, a, w, sent, buried, broken);
      } else {
        QuietShape(s, a, w, sent, buried, broken);
      }
    }
  }

  /** In every interleaving: what a writer has sent is in one piece on one wire if and
      only if no accept of another writer and no new handle came between two of its own
      accepts. For a write that returned true this is its whole frame. */
  lemma OnePieceExactly(actions: seq<Action>, w: nat)
    requires w < |Exec(IDLE, actions).writers|
    ensures var s := Exec(IDLE, actions);
      && WriterOk(s, w)
      && (InOnePiece(s, w) <==> !Interrupted(actions, w))
      && (s.writers[w].status == Succeeded ==> Part(s, w) == Tag(w, s.writers[w].data))
  {
    HistoryShape(actions, w);
    var x := Exec(IDLE, actions).writers[w];
    assert x.data[..|x.data|] == x.data;
  }

  const MIXED_END := [Accept(1, 1), Accept(0, 1)] + ([Accept(1, 1), Finish(0)] + [Finish(1)])
  const MIXED := [Replace, Start([1, 2])] + ([Start([3, 4]), Accept(0, 1)] + MIXED_END)

  const MIXED_WIRE: Tagged := [(0, 1), (1, 3), (0, 2), (1, 4)]

  /** Two writes to one handle that both return true while their frames mix: each is
      on one wire and neither is in one piece. */
  lemma FramesCanMix()
    ensures Exec(IDLE, MIXED) == State([MIXED_WIRE], [Writer([1, 2], 2, Succeeded), Writer([3, 4], 2, Succeeded)], true)
    ensures forall w :: 0 <= w < 2 ==>
      OnOneWire(Exec(IDLE, MIXED), w) && WriterOk(Exec(IDLE, MIXED), w) && !InOnePiece(Exec(IDLE, MIXED), w)
  {
    MixedEnds();
    var s := Exec(IDLE, MIXED);
    WriteConservation(MIXED);
    forall w | 0 <= w < 2 ensures OnOneWire(s, w) && WriterOk(s, w) && !InOnePiece(s, w) {
      assert WriterOk(s, w);
      TrueMeansOneWire(MIXED, w);
      forall h: nat, p: nat ensures !PieceAt(s, w, h, p) {
        MixedApart(s, w, h, p);
      }
    }
  }

  lemma MixedApart(s: State, w: nat, h: nat, p: nat)
    requires s.wires == [MIXED_WIRE] && w < |s.writers| && WriterOk(s, w) && s.writers[w].total == 2
    ensures !PieceAt(s, w, h, p)
  {
    if PieceAt(s, w, h, p) {
      var data := s.writers[w].data[..2];
      SliceTags(MIXED_WIRE, p, w, data, p);
      SliceTags(MIXED_WIRE, p, w, data, p + 1);
    }
  }

  lemma MixedStarts()
    ensures Exec(IDLE, MIXED)
         == Exec(State([[(0, 1)]], [Writer([1, 2], 1, Sending), Writer([3, 4], 0, Sending)], true), MIXED_END)
  {
    var s := State([[]], [Writer([1, 2], 0, Sending)], true);
    TwoSteps(IDLE, Replace, Start([1, 2]), [Start([3, 4]), Accept(0, 1)] + MIXED_END);
    assert Step(Step(IDLE, Replace), Start([1, 2])) == s;
    TwoSteps(s, Start([3, 4]), Accept(0, 1), MIXED_END);
    TwoBytes();
    assert [] + Tag(0, [1]) == [(0, 1)];
    assert Step(Step(s, Start([3, 4])), Accept(0, 1))
        == State([[(0, 1)]], [Writer([1, 2], 1, Sending), Writer([3, 4], 0, Sending)], true);
  }

  lemma BytesThreeFour()
    ensures var d: Bytes := [3, 4]; d[0..1] == [3] && d[1..2] == [4]
  {
    var d: Bytes := [3, 4];
    assert d[0..1] == [d[0]] && d[1..2] == [d[1]];
  }

  lemma MixedGoesOn()
    ensures Exec(State([[(0, 1)]], [Writer([1, 2], 1, Sending), Writer([3, 4], 0, Sending)], true), MIXED_END)
         == Exec(State([[(0, 1), (1, 3), (0, 2)]], [Writer([1, 2], 2, Sending), Writer([3, 4], 1, Sending)], true),
                 [Accept(1, 1), Finish(0)] + [Finish(1)])
  {
    var s := State([[(0, 1)]], [Writer([1, 2], 1, Sending), Writer([3, 4], 0, Sending)], true);
    TwoBytes();
    BytesThreeFour();
    TwoSteps(s, Accept(1, 1), Accept(0, 1), [Accept(1, 1), Finish(0)] + [Finish(1)]);
    assert [(0, 1)] + Tag(1, [3]) == [(0, 1), (1, 3)];
    assert [(0, 1), (1, 3)] + Tag(0, [2]) == [(0, 1), (1, 3), (0, 2)];
    var t := State([[(0, 1), (1, 3)]], [Writer([1, 2], 1, Sending), Writer([3, 4], 1, Sending)], true);
    assert Step(s, Accept(1, 1)) == t;
    assert Step(t, Accept(0, 1))
        == State([[(0, 1), (1, 3), (0, 2)]], [Writer([1, 2], 2, Sending), Writer([3, 4], 1, Sending)], true);
  }

  lemma MixedEnds()
    ensures Exec(IDLE, MIXED) == State([MIXED_WIRE], [Writer([1, 2], 2, Succeeded), Writer([3, 4], 2, Succeeded)], true)
  {
    MixedStarts();
    MixedGoesOn();
    var t := State([[(0, 1), (1, 3), (0, 2)]], [Writer([1, 2], 2, Sending), Writer([3, 4], 1, Sending)], true);
    BytesThreeFour();
    TwoSteps(t, Accept(1, 1), Finish(0), [Finish(1)]);
    assert t.wires[0] + Tag(1, [4]) == MIXED_WIRE;
    assert [Finish(1)][1..] == [];
  }

  // ---- What the other end decodes

  function Untag(wire: Tagged): (b: Bytes)
    ensures |b| == |wire|
  {
    seq(|wire|, i requires 0 <= i < |wire| => wire[i].1)
  }

  predicate OnWire(wire: Tagged, v: nat) { exists i :: 0 <= i < |wire| && wire[i].0 == v }

  /** The writers of a wire, each once. */
  ghost predicate Each(wire: Tagged, order: seq<nat>) {
    && (forall i, j :: 0 <= i < j < |order| ==> order[i] != order[j])
    && (forall v: nat :: v in order <==> OnWire(wire, v))
  }

  predicate WholeAt(wire: Tagged, p: nat, v: nat, data: Bytes) {
    && SliceAt(wire, p, Tag(v, data))
    && (forall j :: 0 <= j < |wire| && wire[j].0 == v ==> p <= j < p + |data|)
  }

  ghost predicate Whole(wire: Tagged, writers: seq<Writer>, v: nat) {
    v < |writers| && exists p: nat :: WholeAt(wire, p, v, writers[v].data)
  }

  ghost predicate AllWhole(wire: Tagged, writers: seq<Writer>) {
    forall i :: 0 <= i < |wire| ==> Whole(wire, writers, wire[i].0)
  }

  /** A wire without its last frame. */
  lemma StillWhole(wire: Tagged, writers: seq<Writer>, p: nat, w: nat, v: nat)
    requires w < |writers| && WholeAt(wire, p, w, writers[w].data) && p + |writers[w].data| == |wire|
    requires Whole(wire, writers, v) && v != w && OnWire(wire, v)
    ensures Whole(wire[..p], writers, v)
  {
    var data := writers[v].data;
    var q: nat :| WholeAt(wire, q, v, data);
    if q + |data| > p {
      var last := q + |data| - 1;
      SliceTags(wire, q, v, data, last);
      SliceTags(wire, p, w, writers[w].data, last);
    }
    assert wire[..p][q..q + |data|] == wire[q..q + |data|];
    assert WholeAt(wire[..p], q, v, data);
  }

  lemma FrontWhole(wire: Tagged, writers: seq<Writer>, p: nat, w: nat)
    requires AllWhole(wire, writers)
    requires w < |writers| && WholeAt(wire, p, w, writers[w].data) && p + |writers[w].data| == |wire|
    ensures AllWhole(wire[..p], writers)
  {
    forall i | 0 <= i < p ensures Whole(wire[..p], writers, wire[..p][i].0) {
      var v := wire[i].0;
      assert Whole(wire, writers, v);
      StillWhole(wire, writers, p, w, v);
    }
  }

  lemma EachMore(wire: Tagged, p: nat, w: nat, data: Bytes, order: seq<nat>)
    requires WholeAt(wire, p, w, data) && data != [] && p + |data| == |wire| && Each(wire[..p], order)
    ensures Each(wire, order + [w])
  {
    var front := wire[..p];
    forall v: nat ensures v in order + [w] <==> OnWire(wire, v) {
      assert v in order <==> OnWire(front, v);
      if OnWire(front, v) {
        var i :| 0 <= i < |front| && front[i].0 == v;
        assert wire[i].0 == v;
      }
      if OnWire(wire, v) && v != w {
        var i :| 0 <= i < |wire| && wire[i].0 == v;
        if i >= p {
          SliceTags(wire, p, w, data, i);
        }
        assert front[i].0 == v;
      }
      SliceTags(wire, p, w, data, p);
    }
    forall i | 0 <= i < |front| ensures front[i].0 != w {
      assert front[i] == wire[i];
    }
    assert w in order <==> OnWire(front, w);
  }

  /** A wire on which every writer has all its bytes in one place is whole frames. */
  lemma {:induction false} WholeBlocks(wire: Tagged, writers: seq<Writer>) returns (order: seq<nat>)
    requires AllWhole(wire, writers)
    ensures BlockWire(wire, writers, order) && Each(wire, order)
    decreases |wire|
  {
    order := [];
    if wire != [] {
      var w := wire[|wire| - 1].0;
      assert Whole(wire, writers, w);
      var data := writers[w].data;
      var p: nat :| WholeAt(wire, p, w, data);
      assert p <= |wire| - 1 < p + |data| <= |wire|;
      FrontWhole(wire, writers, p, w);
      var front := WholeBlocks(wire[..p], writers);
      EachMore(wire, p, w, data, front);
      order := front + [w];
      assert order[..|front|] == front && wire == wire[..p] + wire[p..p + |data|];
    }
  }

  lemma {:induction false} OnWireProjected(wire: Tagged, v: nat)
    ensures OnWire(wire, v) <==> Projection(wire, v) != []
    decreases |wire|
  {
    if wire != [] {
      var front := wire[..|wire| - 1];
      OnWireProjected(front, v);
      if OnWire(wire, v) && wire[|wire| - 1].0 != v {
        var i :| 0 <= i < |wire| && wire[i].0 == v;
        assert front[i].0 == v;
      }
      if OnWire(front, v) {
        var i :| 0 <= i < |front| && front[i].0 == v;
        assert wire[i].0 == v;
      }
    }
  }

  lemma OnlyThere(wire: Tagged, p: nat, v: nat, data: Bytes)
    requires SliceAt(wire, p, Tag(v, data)) && |Projection(wire, v)| <= |data|
    ensures WholeAt(wire, p, v, data)
  {
    var front, back := wire[..p], wire[p + |data|..];
    SliceProjection(wire, p, v, data);
    OnWireProjected(front, v);
    OnWireProjected(back, v);
    assert Projection(front, v) == [] && Projection(back, v) == [];
    forall j | 0 <= j < |wire| && !(p <= j < p + |data|) ensures wire[j].0 != v {
      assert wire[j] == if j < p then front[j] else back[j - p - |data|];
    }
  }

  lemma PieceHere(s: State, v: nat, h: nat, g: nat, p: nat)
    requires v < |s.writers| && WriterOk(s, v) && h < |s.wires| && OnWire(s.wires[h], v)
    requires s.writers[v].total == |s.writers[v].data| && PieceAt(s, v, g, p)
    ensures Whole(s.wires[h], s.writers, v)
  {
    var data := s.writers[v].data;
    assert data[..|data|] == data;
    OnWireProjected(s.wires[h], v);
    SliceProjection(s.wires[g], p, v, data);
    CarriedAlone(s.wires, v, g);
    if g < h {
      CarriedTwo(s.wires, v, g, h);
    } else if h < g {
      CarriedTwo(s.wires, v, h, g);
    }
    OnlyThere(s.wires[h], p, v, data);
  }

  lemma SucceededWhole(actions: seq<Action>, h: nat, v: nat)
    requires h < |Exec(IDLE, actions).wires| && OnWire(Exec(IDLE, actions).wires[h], v)
    requires v < |Exec(IDLE, actions).writers| && Exec(IDLE, actions).writers[v].status == Succeeded
    requires !Interrupted(actions, v)
    ensures Whole(Exec(IDLE, actions).wires[h], Exec(IDLE, actions).writers, v)
  {
    var s := Exec(IDLE, actions);
    OnePieceExactly(actions, v);
    OnWireProjected(s.wires[h], v);
    CarriedAlone(s.wires, v, h);
    var g: nat, p: nat :| PieceAt(s, v, g, p);
    PieceHere(s, v, h, g, p);
  }

  /** The events of these payloads, in this order. */
  function Delivered(payloads: seq<Bytes>, order: seq<nat>): (es: seq<WsReceiver.Event>)
    requires forall i :: 0 <= i < |order| ==> order[i] < |payloads|
  {
    seq(|order|, i requires 0 <= i < |order| => WsReceiver.Data(payloads[order[i]]))
  }

  /** The writer wrote the text frame of this payload. */
  predicate Wrote(writers: seq<Writer>, v: nat, payloads: seq<Bytes>, masks: seq<Mask>) {
    && v < |writers| == |payloads| == |masks| && |payloads[v]| < WORD
    && writers[v].data == TextFrame(payloads[v], masks[v])
  }

  lemma UntagConcat(a: Tagged, v: nat, data: Bytes)
    ensures Untag(a + Tag(v, data)) == Untag(a) + data
  {
  }

  lemma OneFrame(payload: Bytes, mask: Mask)
    requires |payload| < WORD
    ensures WsReceiver.DrainAll(TextFrame(payload, mask)) == WsReceiver.Drain([WsReceiver.Data(payload)], [], false)
  {
    var frame := TextFrame(payload, mask);
    TextFrameRoundTrip(payload, mask, []);
    assert frame + [] == frame && frame[|frame|..] == [];
    assert WsReceiver.DrainAll([]) == WsReceiver.Drain([], [], false);
  }

  predicate AllWrote(writers: seq<Writer>, order: seq<nat>, payloads: seq<Bytes>, masks: seq<Mask>) {
    && |writers| == |payloads| == |masks| && Known(writers, order)
    && forall i :: 0 <= i < |order| ==> Wrote(writers, order[i], payloads, masks)
  }

  lemma DeliveredMore(payloads: seq<Bytes>, front: seq<nat>, v: nat)
    requires v < |payloads| && forall i :: 0 <= i < |front| ==> front[i] < |payloads|
    ensures Delivered(payloads, front + [v]) == Delivered(payloads, front) + [WsReceiver.Data(payloads[v])]
  {
  }

  lemma BlocksMoreBytes(writers: seq<Writer>, front: seq<nat>, v: nat)
    requires Known(writers, front + [v])
    ensures Known(writers, front) && v < |writers|
    ensures Untag(Blocks(writers, front + [v])) == Untag(Blocks(writers, front)) + writers[v].data
  {
    var order := front + [v];
    assert order[|order| - 1] == v && order[..|front|] == front;
    assert forall i :: 0 <= i < |front| ==> order[i] == front[i];
    UntagConcat(Blocks(writers, front), v, writers[v].data);
  }

  lemma WroteFront(writers: seq<Writer>, front: seq<nat>, v: nat, payloads: seq<Bytes>, masks: seq<Mask>)
    requires AllWrote(writers, front + [v], payloads, masks)
    ensures AllWrote(writers, front, payloads, masks) && Wrote(writers, v, payloads, masks)
  {
    var order := front + [v];
    assert order[|front|] == v;
    assert forall i :: 0 <= i < |front| ==> order[i] == front[i];
  }

  /** One more frame on a wire adds one more payload. */
  lemma NextDecoded(bytes: Bytes, es: seq<WsReceiver.Event>, payload: Bytes, mask: Mask)
    requires |payload| < WORD && WsReceiver.DrainAll(bytes) == WsReceiver.Drain(es, [], false)
    ensures WsReceiver.DrainAll(bytes + TextFrame(payload, mask))
         == WsReceiver.Drain(es + [WsReceiver.Data(payload)], [], false)
  {
    var frame := TextFrame(payload, mask);
    WsReceiver.DrainAppend(bytes, frame);
    OneFrame(payload, mask);
    assert [] + frame == frame;
  }

  lemma {:induction false} BlocksDecode(writers: seq<Writer>, order: seq<nat>, payloads: seq<Bytes>, masks: seq<Mask>)
    requires AllWrote(writers, order, payloads, masks)
    ensures WsReceiver.DrainAll(Untag(Blocks(writers, order)))
         == WsReceiver.Drain(Delivered(payloads, order), [], false)
    decreases |order|
  {
    if order == [] {
      assert WsReceiver.DrainAll([]) == WsReceiver.Drain([], [], false);
      assert Untag(Blocks(writers, order)) == [] && Delivered(payloads, order) == [];
    } else {
      var front, v := order[..|order| - 1], order[|order| - 1];
      assert order == front + [v];
      WroteFront(writers, front, v, payloads, masks);
      BlocksDecode(writers, front, payloads, masks);
      BlocksMoreBytes(writers, front, v);
      DeliveredMore(payloads, front, v);
      NextDecoded(Untag(Blocks(writers, front)), Delivered(payloads, front), payloads[v], masks[v]);
    }
  }

  /** A wire whose writers all returned true without an interruption is their frames,
      each once; the other end decodes exactly their payloads and nothing is left. */
  lemma WireDecodes(actions: seq<Action>, h: nat, payloads: seq<Bytes>, masks: seq<Mask>) returns (order: seq<nat>)
    requires h < |Exec(IDLE, actions).wires|
    requires var s := Exec(IDLE, actions);
      forall v: nat :: OnWire(s.wires[h], v) ==>
        Wrote(s.writers, v, payloads, masks) && s.writers[v].status == Succeeded && !Interrupted(actions, v)
    ensures var wire := Exec(IDLE, actions).wires[h];
      && Each(wire, order) && (forall i :: 0 <= i < |order| ==> order[i] < |payloads|)
      && WsReceiver.DrainAll(Untag(wire)) == WsReceiver.Drain(Delivered(payloads, order), [], false)
  {
    var s := Exec(IDLE, actions);
    var wire := s.wires[h];
    forall i | 0 <= i < |wire| ensures Whole(wire, s.writers, wire[i].0) {
      assert OnWire(wire, wire[i].0);
      SucceededWhole(actions, h, wire[i].0);
    }
    order := WholeBlocks(wire, s.writers);
    forall i | 0 <= i < |order| ensures Wrote(s.writers, order[i], payloads, masks) {
      assert order[i] in order;
    }
    if order == [] {
      assert wire == [];
      assert WsReceiver.DrainAll([]) == WsReceiver.Drain([], [], false);
    } else {
      assert Wrote(s.writers, order[0], payloads, masks);
      BlocksDecode(s.writers, order, payloads, masks);
    }
  }
}
