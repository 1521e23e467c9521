/** The 32-bit machine refines the unbounded one.

    Wrapping reduces every sequence number modulo 2^32.  As long as neither
    stream exceeds 2^32 - 65537 bytes, a 32-bit step on the wrapped
    state is the wrapped unbounded step: every comparison the code makes modulo
    2^32 decides the integer comparison it stands for. */
module TcpRefine {
  import opened Bytes
  import opened SeqArith
  import opened Segment
  import opened TcpMachine
  import opened TcpNetwork
  import opened TcpInvariant

  const MAX_STREAM := M32 - 65537

  function W(x: nat): nat { Norm(Mod32, x) }

  function WrapSeg(s: TcpSegment): TcpSegment { s.(seqNo := W(s.seqNo), ackNo := W(s.ackNo)) }

  function WrapSegs(s: seq<TcpSegment>): (r: seq<TcpSegment>)
    ensures |r| == |s|
    ensures forall i :: 0 <= i < |s| ==> r[i] == WrapSeg(s[i])
  {
    seq(|s|, i requires 0 <= i < |s| => WrapSeg(s[i]))
  }

  function WrapTcb(t: Tcb): Tcb {
    t.(sndNxt := W(t.sndNxt), sndUna := W(t.sndUna), iss := W(t.iss), rcvNxt := W(t.rcvNxt), irs := W(t.irs),
       unackedSeq := W(t.unackedSeq), outbox := WrapSegs(t.outbox))
  }

  function WrapNode(n: Node): Node { n.(tcb := WrapTcb(n.tcb)) }

  function WrapChannel(c: Channel): Channel {
    Channel(set s | s in c.sent :: WrapSeg(s), WrapSegs(c.flight))
  }

  function WrapSys(s: Sys): Sys { Sys(WrapNode(s.a), WrapNode(s.b), WrapChannel(s.ab), WrapChannel(s.ba)) }

  // --- The comparisons ---------------------------------------------------------

  /** The send window is short enough for 32-bit comparisons. */
  predicate Near(t: Tcb) {
    && t.iss <= t.sndUna <= t.sndNxt < t.iss + M32 - 1
    && (t.haveUnacked ==> t.iss < t.unackedSeq <= t.unackedSeq + |t.unackedData| <= t.sndNxt)
  }

  lemma NormIdem(x: nat)
    ensures W(W(x)) == W(x)
  {
  }

  lemma AcksNewExact(t: Tcb, seg: TcpSegment)
    requires Near(t) && t.iss < seg.ackNo < t.iss + M32
    ensures AcksNew(Mod32, WrapTcb(t), WrapSeg(seg)) <==> AcksNew(Unbounded, t, seg)
  {
    NormStep(t.sndUna, 1);
    NormStep(t.sndNxt, 1);
    WindowExact(seg.ackNo, t.sndUna + 1, t.sndNxt + 1);
  }

  lemma FinAckedExact(t: Tcb)
    requires Near(t)
    ensures FinAcked(WrapTcb(t)) <==> FinAcked(t)
  {
    NormEqual(t.sndUna, t.sndNxt);
  }

  // --- The building blocks ------------------------------------------------------

  lemma WrapPush(t: Tcb, seg: TcpSegment)
    ensures WrapTcb(Push(t, seg)) == Push(WrapTcb(t), WrapSeg(seg))
  {
    assert WrapSegs(t.outbox + [seg]) == WrapSegs(t.outbox) + [WrapSeg(seg)];
  }

  lemma WrapPlain(t: Tcb, seqNo: nat, flags: Flags, options: bytes, payload: bytes)
    ensures Plain(Mod32, WrapTcb(t), W(seqNo), flags, options, payload) == WrapSeg(Plain(Unbounded, t, seqNo, flags, options, payload))
  {
    NormIdem(seqNo);
    NormIdem(t.rcvNxt);
  }

  lemma WrapPureAck(t: Tcb)
    ensures EmitPureAck(Mod32, WrapTcb(t)) == WrapTcb(EmitPureAck(Unbounded, t))
  {
    WrapPlain(t, t.sndNxt, ACK, [], []);
    WrapPush(t, Plain(Unbounded, t, t.sndNxt, ACK, [], []));
  }

  lemma WrapSynAck(t: Tcb)
    ensures EmitSynAck(Mod32, WrapTcb(t)) == WrapTcb(EmitSynAck(Unbounded, t))
  {
    WrapPlain(t, t.iss, SYN_ACK, BuildMssOption(t.localMss), []);
    WrapPush(t, Plain(Unbounded, t, t.iss, SYN_ACK, BuildMssOption(t.localMss), []));
  }

  lemma WrapEmit(t: Tcb, flags: Flags, payload: bytes)
    ensures Emit(Mod32, WrapTcb(t), flags, payload) == WrapTcb(Emit(Unbounded, t, flags, payload))
  {
    var options := if flags.syn then BuildMssOption(t.localMss) else [];
    var seg := Plain(Unbounded, t, t.sndNxt, flags, options, payload);
    WrapPlain(t, t.sndNxt, flags, options, payload);
    assert seg.payload == payload && seg.SegmentLength() >= |payload|;
    hide Plain;
    WrapTransmit(t, seg);
    WrapTrack(Transmit(Unbounded, t, seg), flags, payload);
  }

  lemma WrapTransmit(t: Tcb, seg: TcpSegment)
    ensures Transmit(Mod32, WrapTcb(t), WrapSeg(seg)) == WrapTcb(Transmit(Unbounded, t, seg))
  {
    WrapPush(t, seg);
    NormStep(t.sndNxt, seg.SegmentLength());
  }

  lemma WrapTrack(t: Tcb, flags: Flags, payload: bytes)
    requires |payload| <= t.sndNxt
    ensures Track(Mod32, WrapTcb(t), flags, payload) == WrapTcb(Track(Unbounded, t, flags, payload))
  {
    NormBack(t.sndNxt, |payload|);
  }

  lemma WrapFlushSend(t: Tcb)
    ensures FlushSend(Mod32, WrapTcb(t)) == WrapTcb(FlushSend(Unbounded, t))
  {
    if t.sendBuf != [] && !t.haveUnacked {
      var n := if |t.sendBuf| <= t.peerMss then |t.sendBuf| else t.peerMss;
      WrapEmit(t.(sendBuf := t.sendBuf[n..]), ACK_PSH, t.sendBuf[..n]);
    }
  }

  lemma WrapLatch(t: Tcb, seg: TcpSegment)
    ensures Latch(Mod32, WrapTcb(t), WrapSeg(seg)) == WrapTcb(Latch(Unbounded, t, seg))
  {
    NormStep(seg.seqNo, 1);
    WrapReadPeerMss(t.(irs := seg.seqNo, rcvNxt := seg.seqNo + 1), seg);
    hide ReadPeerMss;
  }

  lemma WrapReadPeerMss(t: Tcb, seg: TcpSegment)
    ensures ReadPeerMss(WrapTcb(t), WrapSeg(seg)) == WrapTcb(ReadPeerMss(t, seg))
  {
    hide Norm;
  }

  lemma WrapTakePayload(t: Tcb, seg: TcpSegment)
    ensures TakePayload(Mod32, WrapTcb(t), WrapSeg(seg)) == WrapTcb(TakePayload(Unbounded, t, seg))
  {
    NormStep(t.rcvNxt, |seg.payload|);
    WrapPureAck(t.(readBuf := t.readBuf + seg.payload, rcvNxt := t.rcvNxt + |seg.payload|));
  }

  lemma WrapPeerFin(t: Tcb)
    requires Near(t)
    ensures HandlePeerFin(Mod32, WrapTcb(t)) == WrapTcb(HandlePeerFin(Unbounded, t))
  {
    if !t.finReceived {
      var t1 := t.(finReceived := true, rcvNxt := t.rcvNxt + 1);
      NormStep(t.rcvNxt, 1);
      WrapPureAck(t1);
      WrapAfterPeerFin(EmitPureAck(Unbounded, t1));
      WrapFinTaken(t);
      PureAckNear(t1);
      hide AfterPeerFin, EmitPureAck, WrapTcb, Near, Norm;
    }
  }

  lemma WrapFinTaken(t: Tcb)
    ensures WrapTcb(t).finReceived == t.finReceived
    ensures WrapTcb(t.(finReceived := true, rcvNxt := t.rcvNxt + 1))
         == WrapTcb(t).(finReceived := true, rcvNxt := Norm(Mod32, WrapTcb(t).rcvNxt + 1))
  {
    NormStep(t.rcvNxt, 1);
    hide WrapSegs;
  }

  lemma PureAckNear(t: Tcb)
    ensures Near(EmitPureAck(Unbounded, t)) <==> Near(t)
    ensures forall u: Tcb :: Near(u.(finReceived := true, rcvNxt := u.rcvNxt + 1)) <==> Near(u)
  {
  }

  lemma WrapAfterPeerFin(t: Tcb)
    requires Near(t)
    ensures AfterPeerFin(WrapTcb(t)) == WrapTcb(AfterPeerFin(t))
  {
    FinAckedExact(t);
    hide Norm, FinAcked;
  }

  lemma WrapTransitions(t: Tcb)
    requires Near(t)
    ensures CloseTransitions(WrapTcb(t)) == WrapTcb(CloseTransitions(t))
  {
    FinAckedExact(t);
  }

  lemma WrapTakeAck(t: Tcb, seg: TcpSegment)
    requires Near(t) && (seg.flags.ack ==> t.iss < seg.ackNo < t.iss + M32)
    ensures TakeAck(Mod32, WrapTcb(t), WrapSeg(seg)) == WrapTcb(TakeAck(Unbounded, t, seg))
    ensures Near(TakeAck(Unbounded, t, seg))
  {
    if seg.flags.ack {
      AcksNewExact(t, seg);
      if AcksNew(Unbounded, t, seg) {
        WrapClearAcked(t.(sndUna := seg.ackNo, sndWnd := seg.window));
      }
    }
    hide AcksNew;
  }

  lemma WrapClearAcked(t: Tcb)
    requires Near(t)
    ensures ClearAcked(Mod32, WrapTcb(t)) == WrapTcb(ClearAcked(Unbounded, t))
  {
    if t.haveUnacked { BlockEndExact(t.unackedSeq, |t.unackedData|, t.sndUna); }
    WrapCleared(t);
    hide SeqInWindow, Norm, W, Near, WrapSegs;
  }

  /** Does the block end where the acknowledgment does? */
  lemma BlockEndExact(from: nat, n: nat, una: nat)
    requires -M32 < from + n - una < M32
    ensures var end := Norm(Mod32, W(from) + n);
            && (SeqInWindow(Mod32, end, W(una), Norm(Mod32, W(una) + 1)) <==> SeqInWindow(Unbounded, from + n, una, una + 1))
            && (end == W(una) <==> from + n == una)
  {
    NormStep(from, n);
    NormStep(una, 1);
    NormEqual(from + n, una);
    WindowOfOne(from + n, una);
  }

  lemma WindowOfOne(x: nat, y: nat)
    requires -M32 < x - y < M32
    ensures SeqInWindow(Mod32, W(x), W(y), W(y + 1)) <==> SeqInWindow(Unbounded, x, y, y + 1)
  {
    if x - y > 1 - M32 { WindowExact(x, y, y + 1); }
  }

  lemma WrapCleared(t: Tcb)
    ensures WrapTcb(t.(unackedData := [], haveUnacked := false)) == WrapTcb(t).(unackedData := [], haveUnacked := false)
    ensures var u := WrapTcb(t);
            u.haveUnacked == t.haveUnacked && u.unackedData == t.unackedData && u.unackedSeq == W(t.unackedSeq) && u.sndUna == W(t.sndUna)
  {
    hide W, WrapSegs;
  }

  lemma WrapFields(t: Tcb)
    ensures var u := WrapTcb(t);
            && u.state == t.state && u.rcvWnd == t.rcvWnd && u.rcvNxt == W(t.rcvNxt) && u.iss == W(t.iss)
            && u.remoteIp == t.remoteIp && u.remotePort == t.remotePort
  {
  }

  lemma WrapState(t: Tcb, state: State)
    ensures WrapTcb(t.(state := state)) == WrapTcb(t).(state := state) && WrapTcb(t).state == t.state
  {
  }

  // --- User calls ------------------------------------------------------------------

  lemma WrapBind(t: Tcb, ip: Ip, port: nat, iss: nat)
    requires iss < M32
    ensures Bind(WrapTcb(t), ip, port, iss) == WrapTcb(Bind(t, ip, port, iss))
  {
  }

  lemma WrapOpenActive(t: Tcb, ip: Ip, port: nat, iss: nat)
    requires iss < M32 && t.state == CLOSED
    ensures OpenActive(Mod32, WrapTcb(t), ip, port, iss) == Ok(WrapTcb(OpenActive(Unbounded, t, ip, port, iss).value))
  {
    WrapBind(t, ip, port, iss);
    WrapEmit(Bind(t, ip, port, iss), SYN, []);
    hide Emit, Bind;
  }

  lemma WrapWrite(t: Tcb, data: bytes)
    ensures match Write(Unbounded, t, data)
            case Ok(t') => Write(Mod32, WrapTcb(t), data) == Ok(WrapTcb(t'))
            case _ => Write(Mod32, WrapTcb(t), data) == ValueError
  {
    WrapFlushSend(t.(sendBuf := t.sendBuf + data));
    hide FlushSend;
  }

  lemma WrapClose(t: Tcb)
    ensures Close(Mod32, WrapTcb(t)) == WrapTcb(Close(Unbounded, t))
  {
    WrapEmit(t, FIN_ACK, []);
    WrapState(Emit(Unbounded, t, FIN_ACK, []), FIN_WAIT_1);
    WrapState(Emit(Unbounded, t, FIN_ACK, []), LAST_ACK);
    WrapState(t, CLOSED);
    hide Emit, WrapTcb;
    assert WrapTcb(t).state == t.state by { WrapState(t, t.state); }
  }

  lemma WrapRetransmit(t: Tcb)
    ensures Retransmit(Mod32, WrapTcb(t)) == WrapTcb(Retransmit(Unbounded, t))
  {
    WrapPlain(t, t.unackedSeq, ACK_PSH, [], t.unackedData);
    WrapPush(t, Plain(Unbounded, t, t.unackedSeq, ACK_PSH, [], t.unackedData));
    hide Plain, Push;
  }

  // --- Received segments -----------------------------------------------------------

  /** The segment's numbers are within reach of 32-bit comparisons. */
  predicate SegNear(t: Tcb, seg: TcpSegment) {
    && (seg.flags.ack ==> t.iss < seg.ackNo < t.iss + M32)
    && (Windowed(t) ==> t.rcvWnd == 65535 && t.rcvNxt + 65535 - M32 <= seg.seqNo < t.rcvNxt + M32)
    && (seg.flags.fin ==> seg.payload == [])
  }

  lemma WrapOnListen(t: Tcb, seg: TcpSegment, srcIp: Ip, iss: nat)
    requires iss < M32 && !seg.flags.ack
    ensures OnListen(Mod32, WrapTcb(t), WrapSeg(seg), srcIp, iss).0 == WrapTcb(OnListen(Unbounded, t, seg, srcIp, iss).0)
  {
    WrapLatch(t, seg);
    WrapBind(Latch(Unbounded, t, seg), srcIp, seg.srcPort, iss);
    WrapEmit(Bind(Latch(Unbounded, t, seg), srcIp, seg.srcPort, iss), SYN_ACK, []);
    hide Latch, Bind, Emit;
  }

  lemma WrapOnSynSent(t: Tcb, seg: TcpSegment)
    requires Near(t) && SegNear(t, seg)
    ensures OnSynSent(Mod32, WrapTcb(t), WrapSeg(seg)).0 == WrapTcb(OnSynSent(Unbounded, t, seg).0)
  {
    var t1 := Latch(Unbounded, t, seg);
    WrapLatch(t, seg);
    WrapSynAck(t1);
    var t2 := t1.(sndUna := seg.ackNo, sndWnd := seg.window);
    WrapPureAck(t2);
    WrapFlushSend(EmitPureAck(Unbounded, t2).(state := ESTABLISHED));
    if seg.flags.ack { AcksNewExact(t, seg); }
    hide Latch, EmitSynAck, EmitPureAck, FlushSend, AcksNew;
  }

  lemma WrapOnSynReceived(t: Tcb, seg: TcpSegment)
    requires Near(t) && SegNear(t, seg) && t.sndUna == t.iss < t.sndNxt && !t.haveUnacked
    ensures OnSynReceived(Mod32, WrapTcb(t), WrapSeg(seg)).0 == WrapTcb(OnSynReceived(Unbounded, t, seg).0)
  {
    var t1 := t.(sndUna := seg.ackNo, sndWnd := seg.window, state := ESTABLISHED);
    WrapSynAck(t);
    FinalAckExact(t, seg);
    WrapEstablish(t, seg);
    if AcksSyn(Unbounded, t, seg) {
      WrapTakeFirstData(t1, seg);
    }
    SynReceivedShape(Unbounded, t, seg);
    SynReceivedShape(Mod32, WrapTcb(t), WrapSeg(seg));
    hide OnSynReceived, EmitSynAck, TakeFirstData, Near, WrapTcb, AcksSyn;
  }

  predicate AcksSyn(m: Arith, t: Tcb, seg: TcpSegment) {
    seg.flags.ack && seg.ackNo == Norm(m, t.iss + 1)
  }

  lemma FinalAckExact(t: Tcb, seg: TcpSegment)
    requires SegNear(t, seg)
    ensures AcksSyn(Mod32, WrapTcb(t), WrapSeg(seg)) <==> AcksSyn(Unbounded, t, seg)
  {
    if seg.flags.ack {
      NormStep(t.iss, 1);
      NormEqual(seg.ackNo, t.iss + 1);
    }
  }

  lemma SynReceivedShape(m: Arith, t: Tcb, seg: TcpSegment)
    ensures OnSynReceived(m, t, seg).0 ==
            if seg.flags.syn && !seg.flags.ack then EmitSynAck(m, t)
            else if !AcksSyn(m, t, seg) then t
            else TakeFirstData(m, t.(sndUna := seg.ackNo, sndWnd := seg.window, state := ESTABLISHED), seg)
  {
    hide EmitSynAck, TakeFirstData, Norm;
  }

  lemma WrapEstablish(t: Tcb, seg: TcpSegment)
    ensures WrapTcb(t.(sndUna := seg.ackNo, sndWnd := seg.window, state := ESTABLISHED))
         == WrapTcb(t).(sndUna := W(seg.ackNo), sndWnd := seg.window, state := ESTABLISHED)
  {
  }

  lemma WrapTakeFirstData(t: Tcb, seg: TcpSegment)
    requires Near(t) && (seg.flags.fin ==> seg.payload == [])
    ensures TakeFirstData(Mod32, WrapTcb(t), WrapSeg(seg)) == WrapTcb(TakeFirstData(Unbounded, t, seg))
  {
    var t1 := if seg.payload == [] then t else TakePayload(Unbounded, t, seg);
    WrapTakePayload(t, seg);
    if seg.flags.fin { WrapPeerFin(t1); }
    WrapFlushSend(if seg.flags.fin then HandlePeerFin(Unbounded, t1) else t1);
    hide TakePayload, HandlePeerFin, FlushSend;
  }

  lemma WrapOnEstablished(t: Tcb, seg: TcpSegment)
    requires Near(t) && SegNear(t, seg) && Windowed(t)
    ensures OnEstablished(Mod32, WrapTcb(t), WrapSeg(seg)).0 == WrapTcb(OnEstablished(Unbounded, t, seg).0)
  {
    WindowedShape(Unbounded, t, seg);
    WindowedShape(Mod32, WrapTcb(t), WrapSeg(seg));
    InWindowExact(t, seg);
    WrapPureAck(t);
    WrapTakeAck(t, seg);
    var t1 := TakeAck(Unbounded, t, seg);
    assert t1.rcvNxt == t.rcvNxt by { hide *; TakeAckFrame(t, seg); }
    hide OnEstablished, EmitPureAck, TakeAck, TakeData, TakeFin, InWindow, Near;
    WrapTakeData(t1, seg);
    WrapTakeFin(TakeData(Unbounded, t1, seg), seg);
  }

  /** The acceptability test for our fixed receive window. */
  predicate InWindow(m: Arith, t: Tcb, seg: TcpSegment) {
    seg.SegmentLength() == 0 || SeqInWindow(m, seg.seqNo, t.rcvNxt, Norm(m, t.rcvNxt + 65535))
  }

  lemma WindowedShape(m: Arith, t: Tcb, seg: TcpSegment)
    requires t.rcvWnd == 65535
    ensures OnEstablished(m, t, seg).0 ==
            if !InWindow(m, t, seg) then EmitPureAck(m, t) else TakeFin(m, TakeData(m, TakeAck(m, t, seg), seg), seg)
  {
    hide EmitPureAck, TakeAck, TakeData, TakeFin, SeqInWindow, Norm;
  }

  lemma InWindowExact(t: Tcb, seg: TcpSegment)
    requires SegNear(t, seg) && Windowed(t)
    ensures InWindow(Mod32, WrapTcb(t), WrapSeg(seg)) <==> InWindow(Unbounded, t, seg)
  {
    NormStep(t.rcvNxt, 65535);
    WindowExact(seg.seqNo, t.rcvNxt, t.rcvNxt + 65535);
    hide SeqInWindow;
  }

  lemma TakeAckFrame(t: Tcb, seg: TcpSegment)
    ensures TakeAck(Unbounded, t, seg).rcvNxt == t.rcvNxt
  {
  }

  lemma WrapTakeData(t: Tcb, seg: TcpSegment)
    requires Near(t) && t.rcvNxt - M32 < seg.seqNo < t.rcvNxt + M32
    ensures TakeData(Mod32, WrapTcb(t), WrapSeg(seg)) == WrapTcb(TakeData(Unbounded, t, seg))
    ensures Near(TakeData(Unbounded, t, seg))
    ensures seg.payload == [] ==> TakeData(Unbounded, t, seg) == t
  {
    NormEqual(seg.seqNo, t.rcvNxt);
    WrapPureAck(t);
    WrapTakePayload(t, seg);
  }

  lemma WrapTakeFin(t: Tcb, seg: TcpSegment)
    requires Near(t)
    requires seg.flags.fin ==> seg.payload == [] && t.rcvNxt - M32 < seg.seqNo < t.rcvNxt + M32
    ensures TakeFin(Mod32, WrapTcb(t), WrapSeg(seg)) == WrapTcb(TakeFin(Unbounded, t, seg))
  {
    WrapTakenFin(t, seg);
    TakenFinNear(t, seg);
    hide Near, WrapTcb, WrapSeg, TakenFin, Finish;
    WrapFinish(TakenFin(Unbounded, t, seg));
    FinThenFinish(Mod32, WrapTcb(t), WrapSeg(seg));
    FinThenFinish(Unbounded, t, seg);
    hide TakeFin;
  }

  // The two halves of TakeFin.
  function TakenFin(m: Arith, t: Tcb, seg: TcpSegment): Tcb {
    if seg.flags.fin && seg.seqNo + |seg.payload| == t.rcvNxt then HandlePeerFin(m, t) else t
  }

  function Finish(m: Arith, t: Tcb): Tcb {
    var t2 := CloseTransitions(t); if t2.state == ESTABLISHED then FlushSend(m, t2) else t2
  }

  lemma FinThenFinish(m: Arith, t: Tcb, seg: TcpSegment)
    ensures TakeFin(m, t, seg) == Finish(m, TakenFin(m, t, seg))
  {
    hide FlushSend, HandlePeerFin, CloseTransitions;
  }

  lemma WrapTakenFin(t: Tcb, seg: TcpSegment)
    requires Near(t)
    requires seg.flags.fin ==> seg.payload == [] && t.rcvNxt - M32 < seg.seqNo < t.rcvNxt + M32
    ensures TakenFin(Mod32, WrapTcb(t), WrapSeg(seg)) == WrapTcb(TakenFin(Unbounded, t, seg))
  {
    if seg.flags.fin {
      NormEqual(seg.seqNo, t.rcvNxt);
      WrapPeerFin(t);
    }
    WrapFields(t);
    hide HandlePeerFin, Near, WrapTcb;
  }

  lemma TakenFinNear(t: Tcb, seg: TcpSegment)
    requires Near(t)
    ensures Near(TakenFin(Unbounded, t, seg))
  {
    PeerFinNear(t);
    hide HandlePeerFin, Near;
  }

  lemma WrapFinish(t: Tcb)
    requires Near(t)
    ensures Finish(Mod32, WrapTcb(t)) == WrapTcb(Finish(Unbounded, t))
  {
    WrapTransitions(t);
    WrapFlushSend(CloseTransitions(t));
    WrapFields(CloseTransitions(t));
    hide FlushSend, CloseTransitions, Near, WrapTcb;
  }

  lemma PeerFinNear(t: Tcb)
    requires Near(t)
    ensures Near(HandlePeerFin(Unbounded, t))
  {
  }
}
