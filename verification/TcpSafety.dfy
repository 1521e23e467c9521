/** Every action of a run keeps the invariant (unbounded machine). */
module TcpSafety {
  import opened Bytes
  import opened SeqArith
  import opened Segment
  import opened TcpMachine
  import opened TcpNetwork
  import opened TcpInvariant
  import opened TcpSteps

  lemma PeerSegment(x: Node, y: Node, xy: set<TcpSegment>, yx: set<TcpSegment>, seg: TcpSegment)
    requires Core(x, y, xy, yx) && seg in yx
    ensures PktOk(seg, y)
  {
  }

  lemma SynSentKeeps(x: Node, y: Node, xy: set<TcpSegment>, yx: set<TcpSegment>, seg: TcpSegment)
    requires Core(x, y, xy, yx) && x.tcb.state == SYN_SENT && seg in yx
    ensures var t := OnSynSent(Unbounded, x.tcb, seg).0; Core(With(x, t), y, xy, yx) && Settled(t)
  {
    SynSentNumbers(x);
    hide Core, Latch, EmitSynAck;
    if seg.flags.syn && (seg.flags.ack ==> AcksNew(Unbounded, x.tcb, seg)) {
      LatchKeeps(x, y, xy, yx, seg);
      if seg.flags.ack {
        SynAckSeenKeeps(x, y, xy, yx, seg);
      } else {
        SynAckKeeps(With(x, Latch(Unbounded, x.tcb, seg).(state := SYN_RECEIVED)), y, xy, yx);
        assert EmitSynAck(Unbounded, Latch(Unbounded, x.tcb, seg)).(state := SYN_RECEIVED)
            == EmitSynAck(Unbounded, Latch(Unbounded, x.tcb, seg).(state := SYN_RECEIVED)) by {
          SynAckCommutes(Latch(Unbounded, x.tcb, seg), SYN_RECEIVED);
        }
      }
    }
  }

  lemma SynAckCommutes(t: Tcb, state: State)
    ensures EmitSynAck(Unbounded, t).(state := state) == EmitSynAck(Unbounded, t.(state := state))
  {
  }

  /** A SYN+ACK in SYN_SENT: latch, establish, acknowledge, and send the first block. */
  lemma SynAckSeenKeeps(x: Node, y: Node, xy: set<TcpSegment>, yx: set<TcpSegment>, seg: TcpSegment)
    requires Core(With(x, Latch(Unbounded, x.tcb, seg).(state := SYN_RECEIVED)), y, xy, yx)
    requires seg in yx && seg.flags.syn && seg.flags.ack && seg.ackNo == x.tcb.iss + 1
    ensures var latched := Latch(Unbounded, x.tcb, seg).(sndUna := seg.ackNo, sndWnd := seg.window);
            var t := FlushSend(Unbounded, EmitPureAck(Unbounded, latched).(state := ESTABLISHED));
            Core(With(x, t), y, xy, yx) && Settled(t)
  {
    var t1 := Latch(Unbounded, x.tcb, seg);
    assert t1.iss == x.tcb.iss by { hide *; LatchFrame(x.tcb, seg); }
    hide Core, Latch, FlushSend;
    EstablishKeeps(With(x, t1.(state := SYN_RECEIVED)), y, xy, yx, seg);
    var t2 := t1.(sndUna := seg.ackNo, sndWnd := seg.window, state := ESTABLISHED);
    PureAckKeeps(With(x, t2), y, xy, yx);
    assert EmitPureAck(Unbounded, t2) == EmitPureAck(Unbounded, t1.(sndUna := seg.ackNo, sndWnd := seg.window)).(state := ESTABLISHED);
    FlushSendKeeps(With(x, EmitPureAck(Unbounded, t2)), y, xy, yx);
  }

  lemma LatchFrame(t: Tcb, seg: TcpSegment)
    ensures Latch(Unbounded, t, seg).iss == t.iss
  {
  }

  lemma SynSentNumbers(x: Node)
    requires Local(x) && x.tcb.state == SYN_SENT
    ensures x.tcb.sndUna == x.tcb.iss && x.tcb.sndNxt == x.tcb.iss + 1
  {
  }

  /** No sequence check is made here; the peer can have sent only one block by now. */
  lemma OnlyFirstBlock(x: Node, y: Node, xy: set<TcpSegment>, yx: set<TcpSegment>, seg: TcpSegment)
    requires Core(x, y, xy, yx) && seg in yx && seg.payload != []
    requires Latched(x.tcb) && x.tcb.rcvNxt == x.tcb.irs + 1
    ensures seg.seqNo == x.tcb.rcvNxt
  {
  }

  lemma SynReceivedKeeps(x: Node, y: Node, xy: set<TcpSegment>, yx: set<TcpSegment>, seg: TcpSegment)
    requires Core(x, y, xy, yx) && x.tcb.state == SYN_RECEIVED && seg in yx
    ensures var t := OnSynReceived(Unbounded, x.tcb, seg).0; Core(With(x, t), y, xy, yx) && Settled(t)
  {
    if seg.flags.syn && !seg.flags.ack {
      SynAckKeeps(x, y, xy, yx);
    } else if seg.flags.ack && seg.ackNo == x.tcb.iss + 1 {
      FinalAckKeeps(x, y, xy, yx, seg);
    }
  }

  lemma FinalAckKeeps(x: Node, y: Node, xy: set<TcpSegment>, yx: set<TcpSegment>, seg: TcpSegment)
    requires Core(x, y, xy, yx) && x.tcb.state == SYN_RECEIVED && seg in yx
    requires seg.flags.ack && seg.ackNo == x.tcb.iss + 1
    ensures var t := OnSynReceived(Unbounded, x.tcb, seg).0; Core(With(x, t), y, xy, yx) && Settled(t)
  {
    SynReceivedNumbers(x);
    hide Core, TakeFirstData;
    EstablishKeeps(x, y, xy, yx, seg);
    FirstDataKeeps(With(x, x.tcb.(sndUna := seg.ackNo, sndWnd := seg.window, state := ESTABLISHED)), y, xy, yx, seg);
  }

  /** Payload and FIN riding on the ACK that ends the handshake. */
  lemma FirstDataKeeps(x: Node, y: Node, xy: set<TcpSegment>, yx: set<TcpSegment>, seg: TcpSegment)
    requires Core(x, y, xy, yx) && x.tcb.state == ESTABLISHED && seg in yx
    requires Latched(x.tcb) && x.tcb.rcvNxt == x.tcb.irs + 1 && !x.tcb.finReceived
    ensures var t := TakeFirstData(Unbounded, x.tcb, seg); Core(With(x, t), y, xy, yx) && Settled(t)
  {
    PeerSegment(x, y, xy, yx, seg);
    assert seg.flags.fin ==> seg.payload == [];
    assert Windowed(x.tcb);
    FirstDataShape(x.tcb, seg);
    hide Core, PktOk, TakePayload, HandlePeerFin, FlushSend, TakeFirstData, Windowed, SynOk, SliceOk;
    if seg.payload != [] {
      FirstPayloadKeeps(x, y, xy, yx, seg);
      FlushSendKeeps(With(x, TakePayload(Unbounded, x.tcb, seg)), y, xy, yx);
    } else if seg.flags.fin {
      FinKeeps(x, y, xy, yx, seg);
      FlushSendKeeps(With(x, HandlePeerFin(Unbounded, x.tcb)), y, xy, yx);
    } else {
      FlushSendKeeps(x, y, xy, yx);
    }
  }

  lemma FirstPayloadKeeps(x: Node, y: Node, xy: set<TcpSegment>, yx: set<TcpSegment>, seg: TcpSegment)
    requires Core(x, y, xy, yx) && x.tcb.state == ESTABLISHED && seg in yx && seg.payload != []
    requires Latched(x.tcb) && x.tcb.rcvNxt == x.tcb.irs + 1
    ensures Core(With(x, TakePayload(Unbounded, x.tcb, seg)), y, xy, yx)
    ensures TakePayload(Unbounded, x.tcb, seg).state == ESTABLISHED
  {
    hide Core, TakePayload;
    OnlyFirstBlock(x, y, xy, yx, seg);
    PayloadKeeps(x, y, xy, yx, seg);
  }

  lemma FirstDataShape(t: Tcb, seg: TcpSegment)
    requires seg.flags.fin ==> seg.payload == []
    ensures TakeFirstData(Unbounded, t, seg) ==
            FlushSend(Unbounded, if seg.payload != [] then TakePayload(Unbounded, t, seg)
                                 else if seg.flags.fin then HandlePeerFin(Unbounded, t) else t)
  {
    hide FlushSend, TakePayload, HandlePeerFin;
  }

  lemma SynReceivedNumbers(x: Node)
    requires Local(x) && x.tcb.state == SYN_RECEIVED
    ensures Latched(x.tcb) && x.tcb.rcvNxt == x.tcb.irs + 1 && !x.tcb.finReceived
  {
  }

  lemma EstablishedKeeps(x: Node, y: Node, xy: set<TcpSegment>, yx: set<TcpSegment>, seg: TcpSegment)
    requires Core(x, y, xy, yx) && Settled(x.tcb) && seg in yx && Windowed(x.tcb)
    ensures var t := OnEstablished(Unbounded, x.tcb, seg).0; Core(With(x, t), y, xy, yx) && Settled(t)
  {
    assert x.tcb.rcvWnd == 65535;
    hide Core, TakeFin, TakeData, TakeAck, EmitPureAck, Settled;
    if seg.SegmentLength() > 0 && !SeqInWindow(Unbounded, seg.seqNo, x.tcb.rcvNxt, x.tcb.rcvNxt + 65535) {
      PureAckKeeps(x, y, xy, yx);
      assert Settled(EmitPureAck(Unbounded, x.tcb)) by { PureAckSettled(x.tcb); }
    } else {
      TakeAckKeeps(x, y, xy, yx, seg);
      DataKeeps(With(x, TakeAck(Unbounded, x.tcb, seg)), y, xy, yx, seg);
      FinAndFlushKeep(With(x, TakeData(Unbounded, TakeAck(Unbounded, x.tcb, seg), seg)), y, xy, yx, seg);
    }
  }

  lemma PureAckSettled(t: Tcb)
    ensures Settled(EmitPureAck(Unbounded, t)) <==> Settled(t)
  {
  }

  lemma DataKeeps(x: Node, y: Node, xy: set<TcpSegment>, yx: set<TcpSegment>, seg: TcpSegment)
    requires Core(x, y, xy, yx) && seg in yx && Windowed(x.tcb)
    ensures var t := TakeData(Unbounded, x.tcb, seg); Core(With(x, t), y, xy, yx) && t.state == x.tcb.state
  {
    hide Core, TakePayload, EmitPureAck;
    if seg.payload == [] {
    } else if seg.seqNo == x.tcb.rcvNxt {
      PayloadKeeps(x, y, xy, yx, seg);
    } else {
      PureAckKeeps(x, y, xy, yx);
    }
  }

  lemma FinAndFlushKeep(x: Node, y: Node, xy: set<TcpSegment>, yx: set<TcpSegment>, seg: TcpSegment)
    requires Core(x, y, xy, yx) && seg in yx && Windowed(x.tcb)
    ensures var t := TakeFin(Unbounded, x.tcb, seg); Core(With(x, t), y, xy, yx) && Settled(t)
  {
    var t1 := if seg.flags.fin && seg.seqNo + |seg.payload| == x.tcb.rcvNxt then HandlePeerFin(Unbounded, x.tcb) else x.tcb;
    PeerSegment(x, y, xy, yx, seg);
    TakeFinShape(x.tcb, seg);
    hide Core, PktOk, HandlePeerFin, FlushSend, CloseTransitions, TakeFin, SynOk, SliceOk;
    if seg.flags.fin && seg.seqNo + |seg.payload| == x.tcb.rcvNxt {
      FinKeeps(x, y, xy, yx, seg);
    }
    var x1, x2 := With(x, t1), With(x, CloseTransitions(t1));
    TransitionsKeep(x1, y, xy, yx);
    if x2.tcb.state == ESTABLISHED {
      FlushSendKeeps(x2, y, xy, yx);
    }
  }

  lemma TakeFinShape(t: Tcb, seg: TcpSegment)
    ensures var t1 := if seg.flags.fin && seg.seqNo + |seg.payload| == t.rcvNxt then HandlePeerFin(Unbounded, t) else t;
            var t2 := CloseTransitions(t1);
            TakeFin(Unbounded, t, seg) == if t2.state == ESTABLISHED then FlushSend(Unbounded, t2) else t2
  {
    hide FlushSend, HandlePeerFin, CloseTransitions;
  }

  lemma TransitionsKeep(x: Node, y: Node, xy: set<TcpSegment>, yx: set<TcpSegment>)
    requires Core(x, y, xy, yx)
    ensures Core(With(x, CloseTransitions(x.tcb)), y, xy, yx)
    ensures CloseTransitions(x.tcb).state in {FIN_WAIT_1, CLOSING, LAST_ACK} ==> !FinAcked(CloseTransitions(x.tcb))
  {
    TransitionsLocal(x);
    RelabelKeeps(x, With(x, CloseTransitions(x.tcb)), y, xy, yx);
  }

  lemma TransitionsLocal(x: Node)
    requires Local(x)
    ensures var x' := With(x, CloseTransitions(x.tcb)); SameBooks(x, x') && StateOk(x')
  {
    hide SenderOk, ReceiverOk;
  }

  /** While one side listens the other has latched nothing, and so acknowledges nothing. */
  lemma ListenerSeesNoAck(x: Node, y: Node, xy: set<TcpSegment>, yx: set<TcpSegment>, seg: TcpSegment)
    requires Core(x, y, xy, yx) && x.tcb.state == LISTEN && seg in yx
    ensures !seg.flags.ack && seg.flags.syn
  {
    assert PktOk(seg, y);
  }

  lemma FromPeer(x: Node, y: Node, xy: set<TcpSegment>, yx: set<TcpSegment>, seg: TcpSegment)
    requires Core(x, y, xy, yx) && seg in yx
    ensures !seg.flags.rst
    ensures x.tcb.state != CLOSED && x.tcb.state != LISTEN ==>
              seg.srcPort == x.tcb.remotePort && x.tcb.remoteIp == Some(y.tcb.localIp)
    ensures x.tcb.state == LISTEN ==> x.started
  {
    assert PktOk(seg, y);
  }

  /** A segment the peer sent at any time in the past arrives. */
  lemma SegmentKeeps(x: Node, y: Node, xy: set<TcpSegment>, yx: set<TcpSegment>, seg: TcpSegment, iss: nat)
    requires Core(x, y, xy, yx) && Settled(x.tcb) && x.tcb.outbox == [] && seg in yx
    ensures var t := OnSegment(Unbounded, x.tcb, seg, y.tcb.localIp, iss).0; Core(With(x, t), y, xy, yx) && Settled(t)
  {
    FromPeer(x, y, xy, yx, seg);
    if x.tcb.state == LISTEN { ListenerSeesNoAck(x, y, xy, yx, seg); }
    hide *;
    DispatchKeeps(x, y, xy, yx, seg, iss);
    Dispatch(x.tcb, seg, y.tcb.localIp, iss);
  }

  /** What OnSegment comes down to for a segment of the peer that is not a RST. */
  function Dispatched(t: Tcb, seg: TcpSegment, srcIp: Ip, iss: nat): Tcb {
    match t.state
    case CLOSED => t
    case LISTEN => OnListen(Unbounded, t, seg, srcIp, iss).0
    case SYN_SENT => OnSynSent(Unbounded, t, seg).0
    case SYN_RECEIVED => OnSynReceived(Unbounded, t, seg).0
    case TIME_WAIT => if seg.flags.fin then EmitPureAck(Unbounded, t) else t
    case _ => OnEstablished(Unbounded, t, seg).0
  }

  lemma Dispatch(t: Tcb, seg: TcpSegment, srcIp: Ip, iss: nat)
    requires !seg.flags.rst
    requires t.state != CLOSED && t.state != LISTEN ==> seg.srcPort == t.remotePort && t.remoteIp == Some(srcIp)
    ensures OnSegment(Unbounded, t, seg, srcIp, iss).0 == Dispatched(t, seg, srcIp, iss)
  {
    hide OnListen, OnSynSent, OnSynReceived, OnEstablished, EmitPureAck;
  }

  lemma DispatchKeeps(x: Node, y: Node, xy: set<TcpSegment>, yx: set<TcpSegment>, seg: TcpSegment, iss: nat)
    requires Core(x, y, xy, yx) && Settled(x.tcb) && x.tcb.outbox == [] && seg in yx
    requires x.tcb.state == LISTEN ==> !seg.flags.ack && seg.flags.syn && x.started
    ensures var t := Dispatched(x.tcb, seg, y.tcb.localIp, iss); Core(With(x, t), y, xy, yx) && Settled(t)
  {
    hide Core, OnListen, OnSynSent, OnSynReceived, OnEstablished, EmitPureAck;
    match x.tcb.state
    case CLOSED =>
    case LISTEN => ListenKeeps(x, y, xy, yx, seg, iss);
    case SYN_SENT => SynSentKeeps(x, y, xy, yx, seg);
    case SYN_RECEIVED => SynReceivedKeeps(x, y, xy, yx, seg);
    case TIME_WAIT => if seg.flags.fin { PureAckKeeps(x, y, xy, yx); }
    case _ => EstablishedKeeps(x, y, xy, yx, seg);
  }
}
