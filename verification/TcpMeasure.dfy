/** No ACK storms: what is in flight provokes less than itself. */
module TcpMeasure {
  import opened Bytes
  import opened SeqArith
  import opened Segment
  import opened TcpMachine
  import opened TcpNetwork
  import opened TcpInvariant
  import opened TcpSteps
  import opened TcpSafety
  import opened TcpRuns
  import opened TcpRefine
  import opened TcpSimulation
  import opened TcpTheorems

  /** What a segment may provoke: a SYN a SYN+ACK, that an ACK and a block, a block an ACK. */
  function Weight(seg: TcpSegment): nat {
    if seg.flags.rst then 1
    else if seg.flags.syn then if seg.flags.ack then 4 else 5
    else if seg.payload != [] || seg.flags.fin then 3
    else 1
  }

  function Total(segs: seq<TcpSegment>): nat {
    if segs == [] then 0 else Weight(segs[0]) + Total(segs[1..])
  }

  /** The weight of all that is in flight, and of the blocks the unsent bytes may become. */
  function Measure(s: Sys): nat {
    Total(s.ab.flight) + Total(s.ba.flight) + 4 * |s.a.tcb.sendBuf| + 4 * |s.b.tcb.sendBuf|
  }

  function Cost(t: Tcb): nat { Total(t.outbox) + 4 * |t.sendBuf| }

  lemma {:induction false} TotalAppend(f: seq<TcpSegment>, g: seq<TcpSegment>)
    ensures Total(f + g) == Total(f) + Total(g)
  {
    if f == [] {
      assert f + g == g;
    } else {
      assert (f + g)[1..] == f[1..] + g;
      TotalAppend(f[1..], g);
    }
  }

  lemma TotalWithout(f: seq<TcpSegment>, i: nat)
    requires i < |f|
    ensures Total(Without(f, i)) == Total(f) - Weight(f[i])
  {
    assert f == f[..i] + f[i..];
    TotalAppend(f[..i], f[i..]);
    TotalAppend(f[..i], f[i + 1..]);
  }

  // --- What each reaction costs -------------------------------------------------------

  lemma PushCost(t: Tcb, seg: TcpSegment)
    ensures Total(t.outbox + [seg]) == Total(t.outbox) + Weight(seg)
  {
    TotalAppend(t.outbox, [seg]);
    assert [seg][1..] == [];
  }

  lemma FlushSendCost(m: Arith, t: Tcb)
    requires t.peerMss > 0
    ensures Cost(FlushSend(m, t)) <= Cost(t)
  {
    if t.sendBuf != [] && !t.haveUnacked {
      var n := if |t.sendBuf| <= t.peerMss then |t.sendBuf| else t.peerMss;
      PushCost(t, Plain(m, t.(sendBuf := t.sendBuf[n..]), t.sndNxt, ACK_PSH, [], t.sendBuf[..n]));
    }
  }

  lemma PureAckCost(m: Arith, t: Tcb)
    ensures Cost(EmitPureAck(m, t)) == Cost(t) + 1 && EmitPureAck(m, t).peerMss == t.peerMss
  {
    PushCost(t, Plain(m, t, t.sndNxt, ACK, [], []));
  }

  lemma SynAckCost(m: Arith, t: Tcb)
    ensures Cost(EmitSynAck(m, t)) == Cost(t) + 4
    ensures Cost(Emit(m, t, SYN_ACK, [])) == Cost(t) + 4
  {
    PushCost(t, Plain(m, t, t.iss, SYN_ACK, BuildMssOption(t.localMss), []));
    PushCost(t, Plain(m, t, t.sndNxt, SYN_ACK, BuildMssOption(t.localMss), []));
  }

  lemma TakePayloadCost(m: Arith, t: Tcb, seg: TcpSegment)
    ensures Cost(TakePayload(m, t, seg)) == Cost(t) + 1 && TakePayload(m, t, seg).peerMss == t.peerMss
  {
    PureAckCost(m, t.(readBuf := t.readBuf + seg.payload, rcvNxt := Norm(m, t.rcvNxt + |seg.payload|)));
    hide EmitPureAck;
  }

  lemma PeerFinCost(m: Arith, t: Tcb)
    ensures Cost(HandlePeerFin(m, t)) <= Cost(t) + 1 && HandlePeerFin(m, t).peerMss == t.peerMss
  {
    PureAckCost(m, t.(finReceived := true, rcvNxt := Norm(m, t.rcvNxt + 1)));
    hide EmitPureAck;
  }

  lemma FirstDataCost(m: Arith, t: Tcb, seg: TcpSegment)
    requires t.peerMss > 0 && !seg.flags.rst && (seg.flags.fin ==> seg.payload == [])
    ensures Cost(TakeFirstData(m, t, seg)) < Cost(t) + Weight(seg)
  {
    TakePayloadCost(m, t, seg);
    var t1 := if seg.payload == [] then t else TakePayload(m, t, seg);
    hide TakePayload;
    PeerFinCost(m, t1);
    hide HandlePeerFin, Cost;
    FlushSendCost(m, if seg.flags.fin then HandlePeerFin(m, t1) else t1);
    hide FlushSend;
  }

  lemma TakeAckCost(m: Arith, t: Tcb, seg: TcpSegment)
    ensures Cost(TakeAck(m, t, seg)) == Cost(t) && TakeAck(m, t, seg).peerMss == t.peerMss
  {
  }

  lemma TakeDataCost(m: Arith, t: Tcb, seg: TcpSegment)
    ensures Cost(TakeData(m, t, seg)) == Cost(t) + (if seg.payload == [] then 0 else 1)
    ensures TakeData(m, t, seg).peerMss == t.peerMss
  {
    TakePayloadCost(m, t, seg);
    PureAckCost(m, t);
    hide TakePayload, EmitPureAck, Cost;
  }

  lemma CloseTransitionsCost(t: Tcb)
    ensures Cost(CloseTransitions(t)) == Cost(t) && CloseTransitions(t).peerMss == t.peerMss
  {
  }

  lemma TakeFinCost(m: Arith, t: Tcb, seg: TcpSegment)
    requires t.peerMss > 0
    ensures Cost(TakeFin(m, t, seg)) <= Cost(t) + Bit(seg.flags.fin)
  {
    PeerFinCost(m, t);
    var t1 := if seg.flags.fin && seg.seqNo + |seg.payload| == t.rcvNxt then HandlePeerFin(m, t) else t;
    hide HandlePeerFin;
    CloseTransitionsCost(t1);
    hide CloseTransitions, Cost;
    FlushSendCost(m, CloseTransitions(t1));
    hide FlushSend;
  }

  lemma EstablishedCost(m: Arith, t: Tcb, seg: TcpSegment)
    requires t.peerMss > 0 && !seg.flags.rst && (seg.flags.fin ==> seg.payload == [])
    ensures Cost(OnEstablished(m, t, seg).0) < Cost(t) + Weight(seg)
  {
    TakeAckCost(m, t, seg);
    TakeDataCost(m, TakeAck(m, t, seg), seg);
    TakeFinCost(m, TakeData(m, TakeAck(m, t, seg), seg), seg);
    PureAckCost(m, t);
    hide TakeAck, TakeData, TakeFin, EmitPureAck, Cost;
  }

  lemma SynSentCost(m: Arith, t: Tcb, seg: TcpSegment)
    requires t.state == SYN_SENT && !seg.flags.rst && (seg.flags.syn ==> Latch(m, t, seg).peerMss > 0)
    ensures Cost(OnSynSent(m, t, seg).0) < Cost(t) + Weight(seg)
  {
    var t1 := Latch(m, t, seg);
    assert Cost(t1) == Cost(t);
    hide Latch;
    if seg.flags.syn {
      var t2 := EmitPureAck(m, t1.(sndUna := seg.ackNo, sndWnd := seg.window));
      PureAckCost(m, t1.(sndUna := seg.ackNo, sndWnd := seg.window));
      SynAckCost(m, t1);
      hide EmitPureAck, EmitSynAck;
      FlushSendCost(m, t2.(state := ESTABLISHED));
      hide FlushSend;
    }
  }

  lemma SynReceivedCost(m: Arith, t: Tcb, seg: TcpSegment)
    requires t.peerMss > 0 && !seg.flags.rst && (seg.flags.fin ==> seg.payload == [])
    ensures Cost(OnSynReceived(m, t, seg).0) < Cost(t) + Weight(seg)
  {
    SynAckCost(m, t);
    FirstDataCost(m, t.(sndUna := seg.ackNo, sndWnd := seg.window, state := ESTABLISHED), seg);
    hide TakeFirstData, EmitSynAck;
  }

  lemma ListenCost(m: Arith, t: Tcb, seg: TcpSegment, srcIp: Ip, iss: nat)
    requires !seg.flags.rst && !seg.flags.ack
    ensures Cost(OnListen(m, t, seg, srcIp, iss).0) < Cost(t) + Weight(seg)
  {
    var t1 := Bind(Latch(m, t, seg), srcIp, seg.srcPort, iss);
    assert Cost(t1) == Cost(t);
    SynAckCost(m, t1);
    hide Emit, Latch;
  }

  lemma SegmentCost(x: Node, y: Node, xy: set<TcpSegment>, yx: set<TcpSegment>, seg: TcpSegment, iss: nat)
    requires Core(x, y, xy, yx) && Settled(x.tcb) && x.tcb.outbox == [] && seg in yx
    ensures Cost(OnSegment(Unbounded, x.tcb, seg, y.tcb.localIp, iss).0) < Cost(x.tcb) + Weight(seg)
  {
    FromPeer(x, y, xy, yx, seg);
    if x.tcb.state == LISTEN { ListenerSeesNoAck(x, y, xy, yx, seg); }
    Dispatch(x.tcb, seg, y.tcb.localIp, iss);
    FinHasNoPayload(x, y, xy, yx, seg);
    if x.tcb.state == SYN_SENT { LatchMss(x, y, xy, yx, seg); }
    SyncedMss(x, y, xy, yx);
    hide Core, Settled, OnSegment, OnListen, OnSynSent, OnSynReceived, OnEstablished, EmitPureAck, Half;
    match x.tcb.state
    case CLOSED =>
    case LISTEN => ListenCost(Unbounded, x.tcb, seg, y.tcb.localIp, iss);
    case SYN_SENT => SynSentCost(Unbounded, x.tcb, seg);
    case SYN_RECEIVED => SynReceivedCost(Unbounded, x.tcb, seg);
    case TIME_WAIT => PureAckCost(Unbounded, x.tcb);
    case _ => EstablishedCost(Unbounded, x.tcb, seg);
  }

  lemma SyncedMss(x: Node, y: Node, xy: set<TcpSegment>, yx: set<TcpSegment>)
    requires Core(x, y, xy, yx)
    ensures Synced(x.tcb) ==> x.tcb.peerMss > 0
  {
    hide Half;
  }

  lemma FinHasNoPayload(x: Node, y: Node, xy: set<TcpSegment>, yx: set<TcpSegment>, seg: TcpSegment)
    requires Core(x, y, xy, yx) && seg in yx
    ensures seg.flags.fin ==> seg.payload == []
  {
    assert PktOk(seg, y);
  }

  lemma LatchMss(x: Node, y: Node, xy: set<TcpSegment>, yx: set<TcpSegment>, seg: TcpSegment)
    requires Core(x, y, xy, yx) && x.tcb.state == SYN_SENT && seg in yx
    ensures seg.flags.syn ==> Latch(Unbounded, x.tcb, seg).peerMss > 0
  {
    if seg.flags.syn {
      LatchKeeps(x, y, xy, yx, seg);
    }
  }

  // --- Runs ---------------------------------------------------------------------------

  lemma DeliverCost(n: Node, peer: Node, out: Channel, inp: Channel, i: nat, iss: nat)
    requires InvFor(n, peer, out, inp) && i < |inp.flight|
    ensures var (n', out') := Receive(Unbounded, n, inp.flight[i], peer.tcb.localIp, iss, out);
            Total(out'.flight) + 4 * |n'.tcb.sendBuf| + Total(Without(inp.flight, i))
            < Total(out.flight) + 4 * |n.tcb.sendBuf| + Total(inp.flight)
  {
    var seg := inp.flight[i];
    SegmentCost(n, peer, out.sent, inp.sent, seg, iss);
    TotalWithout(inp.flight, i);
    TotalAppend(out.flight, OnSegment(Unbounded, n.tcb, seg, peer.tcb.localIp, iss).0.outbox);
    hide Core, OnSegment;
  }

  /** The delivery of something that is in flight. */
  predicate Delivers(s: Sys, act: Action) {
    act.Deliver? && act.i < |s.From(act.side).ba.flight| && act.iss < M32
  }

  lemma StepDecreases(s: Sys, act: Action)
    requires Inv(s) && Delivers(s, act)
    ensures Measure(Step(Unbounded, s, act)) < Measure(s)
  {
    if act.side == A {
      ActDecreases(s, act);
    } else {
      FlipInv(s);
      ActDecreases(s.Flip(), act);
    }
    hide Inv, ActA, Total;
  }

  lemma ActDecreases(s: Sys, act: Action)
    requires Inv(s) && act.Deliver? && act.i < |s.ba.flight| && act.iss < M32
    ensures Measure(ActA(Unbounded, s, act)) < Measure(s)
  {
    DeliverCost(s.a, s.b, s.ab, s.ba, act.i, act.iss);
    hide Inv, Receive, Total, Without;
  }

  lemma {:induction false} WrapTotal(f: seq<TcpSegment>)
    ensures Total(WrapSegs(f)) == Total(f)
  {
    if f != [] {
      assert WrapSegs(f)[1..] == WrapSegs(f[1..]);
      WrapTotal(f[1..]);
    }
  }

  lemma WrapMeasure(s: Sys)
    ensures Measure(WrapSys(s)) == Measure(s)
  {
    WrapTotal(s.ab.flight);
    WrapTotal(s.ba.flight);
    WrapBuffers(s.a);
    WrapBuffers(s.b);
    hide WrapTcb, Total;
  }

  /** Every delivery of something in flight strictly decreases the measure, in every
      reachable state: before, during and after the handshake and the closes. */
  lemma DeliveryDecreases(c: Config, acts: seq<Action>, act: Action)
    requires SmallSys(Reach(c, acts)) && Delivers(Reach(c, acts), act)
    ensures Measure(Step(Mod32, Reach(c, acts), act)) < Measure(Reach(c, acts))
    ensures SmallSys(Step(Mod32, Reach(c, acts), act))
  {
    Refines(c, acts);
    var u := Behind(c, acts);
    WrapStep(u, act);
    LiftDelivery(u, act);
    StepDecreases(u, act);
    WrapMeasure(u);
    WrapMeasure(Step(Unbounded, u, act));
    DeliverWrites(u, act);
    WrapWritten(Step(Unbounded, u, act));
    hide *;
  }

  lemma LiftDelivery(u: Sys, act: Action)
    requires Delivers(WrapSys(u), act)
    ensures Delivers(u, act) && LiftSys(u, act) == act
  {
    hide WrapTcb;
  }

  lemma WrapWritten(s: Sys)
    ensures SmallSys(WrapSys(s)) == SmallSys(s)
  {
    hide WrapTcb;
  }

  lemma DeliverWrites(s: Sys, act: Action)
    requires act.Deliver?
    ensures SmallSys(Step(Unbounded, s, act)) == SmallSys(s)
  {
    hide OnSegment;
  }

  /** Without the retransmit timer and new user calls an exchange is over after at most
      as many deliveries as the measure says. */
  lemma {:induction false} ExchangeEnds(c: Config, acts: seq<Action>, more: seq<Action>)
    requires SmallSys(Reach(c, acts))
    requires forall k :: 0 <= k < |more| ==> Delivers(Reach(c, acts + more[..k]), more[k])
    ensures SmallSys(Reach(c, acts + more))
    ensures |more| + Measure(Reach(c, acts + more)) <= Measure(Reach(c, acts))
  {
    if more == [] {
      assert acts + more == acts;
    } else {
      var init, last := more[..|more| - 1], more[|more| - 1];
      assert forall k :: 0 <= k < |init| ==> init[..k] == more[..k];
      ExchangeEnds(c, acts, init);
      assert more[..|init|] == init;
      DeliveryDecreases(c, acts + init, last);
      ReachMore(c, acts, more);
      hide *;
    }
  }
}
