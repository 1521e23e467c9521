/** Event processing as RFC 9293 section 3.10 lays it out: for each call and each segment,
    every field of the control block afterwards, in one step.

    The connection works through a segment in stages, each a function of TcpMachine.  The
    tables here know nothing of the stages: each entry reads off the block before the
    event and the segment, and the lemmas prove that the stages come to the same. */
module TcpTable {
  import opened Bytes
  import opened SeqArith
  import opened Segment
  import opened TcpMachine

  /** A segment of this side: its ports, its window, the next number expected. */
  function Out(t: Tcb, seqNo: nat, flags: Flags, options: bytes, payload: bytes): TcpSegment {
    TcpSegment(t.localPort, t.remotePort, seqNo % M32, t.rcvNxt % M32, flags, t.rcvWnd % 65536, options, payload, 0)
  }

  const F_SYN := Flags(false, true, false, false, false, false, false, false)
  const F_SYN_ACK := Flags(false, true, false, false, true, false, false, false)
  const F_ACK := Flags(false, false, false, false, true, false, false, false)
  const F_PSH_ACK := Flags(false, false, false, true, true, false, false, false)
  const F_FIN_ACK := Flags(true, false, false, false, true, false, false, false)
  const F_RST := Flags(false, false, true, false, false, false, false, false)

  function MssOption(mss: nat): bytes { [2, 4, mss % 65536 / 256, mss % 256] }

  lemma MssOptionIs(mss: nat)
    ensures BuildMssOption(mss) == MssOption(mss)
  {
    assert mss % 65536 % 256 == mss % 256;
  }

  // --- Calls --------------------------------------------------------------------------------

  /** What is left to send, its first block gone out as one segment. */
  function BlockSent(t: Tcb, buf: bytes): Tcb {
    var n := if |buf| <= t.peerMss then |buf| else t.peerMss;
    t.(sendBuf := buf[n..], unackedData := buf[..n], unackedSeq := t.sndNxt, haveUnacked := true,
       sndNxt := (t.sndNxt + n) % M32, outbox := t.outbox + [Out(t, t.sndNxt, F_PSH_ACK, [], buf[..n])])
  }

  /** Buffered, and sent at once if nothing is outstanding. */
  function Buffered(t: Tcb, buf: bytes): Tcb {
    if buf == [] || t.haveUnacked then t.(sendBuf := buf) else BlockSent(t, buf)
  }

  /** Section 3.10.2, SEND. */
  lemma WriteTable(t: Tcb, data: bytes)
    requires t.sndNxt < M32 && (t.state == ESTABLISHED ==> t.peerMss > 0)
    ensures Write(Mod32, t, data).Ok? <==> t.state in {CLOSED, LISTEN, SYN_SENT, SYN_RECEIVED, ESTABLISHED}
    ensures t.state in {CLOSED, LISTEN, SYN_SENT, SYN_RECEIVED} ==>
              Write(Mod32, t, data) == Ok(t.(sendBuf := t.sendBuf + data))
    ensures t.state == ESTABLISHED ==> Write(Mod32, t, data) == Ok(Buffered(t, t.sendBuf + data))
  {
    if t.state == ESTABLISHED { FlushTable(t.(sendBuf := t.sendBuf + data)); }
    hide FlushSend, BlockSent;
    assert Buffered(t.(sendBuf := t.sendBuf + data), t.sendBuf + data) == Buffered(t, t.sendBuf + data) by {
      BlockOfBuffer(t, t.sendBuf + data);
    }
  }

  lemma BlockOfBuffer(t: Tcb, buf: bytes)
    ensures BlockSent(t.(sendBuf := buf), buf) == BlockSent(t, buf)
  {
  }

  lemma FlushTable(t: Tcb)
    requires t.sndNxt < M32 && t.peerMss > 0
    ensures FlushSend(Mod32, t) == Buffered(t, t.sendBuf)
  {
    if t.sendBuf != [] && !t.haveUnacked {
      var n := if |t.sendBuf| <= t.peerMss then |t.sendBuf| else t.peerMss;
      BackAgain(t.sndNxt, n);
    } else {
      assert t.(sendBuf := t.sendBuf) == t;
    }
  }

  lemma BackAgain(x: nat, n: nat)
    requires x < M32
    ensures ((x + n) % M32 - n) % M32 == x
  {
    assert (x + n) % M32 - n == x - M32 * ((x + n) / M32);
    ModOffset(x, 0);
  }

  /** A new connection: closed, nothing sent, received or outstanding, a window of 65535 each way. */
  lemma InitTable(ip: Ip, port: nat, mss: nat)
    ensures Init(ip, port, mss)
         == Tcb(localIp := ip, localPort := port, remoteIp := None, remotePort := 0, state := CLOSED,
                sndNxt := 0, sndUna := 0, iss := 0, sndWnd := 65535, rcvNxt := 0, irs := 0, rcvWnd := 65535,
                outbox := [], readBuf := [], sendBuf := [], unackedData := [], unackedSeq := 0, haveUnacked := false,
                localMss := mss, peerMss := mss, finReceived := false, finSent := false,
                aborted := false, abortedIn := None)
  {
  }

  /** Section 3.10.1, OPEN: both forms need a closed connection; the active one sends the SYN. */
  lemma OpenTable(t: Tcb, ip: Ip, port: nat, iss: nat)
    requires iss < M32
    ensures OpenListen(t) == if t.state == CLOSED then Ok(t.(state := LISTEN)) else ValueError
    ensures var bound := t.(remoteIp := Some(ip), remotePort := port);
            OpenActive(Mod32, t, ip, port, iss)
            == if t.state != CLOSED then ValueError
               else Ok(bound.(state := SYN_SENT, iss := iss, sndUna := iss, sndNxt := (iss + 1) % M32,
                              outbox := t.outbox + [Out(bound, iss, F_SYN, MssOption(t.localMss), [])]))
  {
    MssOptionIs(t.localMss);
    hide BuildMssOption, MssOption;
  }

  function FinGone(t: Tcb, state: State): Tcb {
    t.(state := state, finSent := true, sndNxt := (t.sndNxt + 1) % M32,
       outbox := t.outbox + [Out(t, t.sndNxt, F_FIN_ACK, [], [])])
  }

  /** Section 3.10.4, CLOSE. */
  lemma CloseTable(t: Tcb)
    ensures Close(Mod32, t)
         == match t.state
            case CLOSED => t
            case LISTEN => t.(state := CLOSED)
            case SYN_SENT => t.(state := CLOSED)
            case SYN_RECEIVED => FinGone(t, FIN_WAIT_1)
            case ESTABLISHED => FinGone(t, FIN_WAIT_1)
            case CLOSE_WAIT => FinGone(t, LAST_ACK)
            case _ => t
  {
    FinEmitted(t, FIN_WAIT_1);
    FinEmitted(t, LAST_ACK);
    hide Emit, FinGone;
  }

  lemma FinEmitted(t: Tcb, state: State)
    ensures Emit(Mod32, t, FIN_ACK, []).(state := state) == FinGone(t, state)
  {
  }

  /** Section 3.10.3, RECEIVE: the first n bytes, or everything, come out and the rest stays. */
  lemma PopReadTable(t: Tcb, n: Option<nat>)
    ensures var k := if n == None || n.value > |t.readBuf| then |t.readBuf| else n.value;
            PopRead(t, n) == (t.readBuf[..k], t.(readBuf := t.readBuf[k..]))
  {
    assert t.readBuf[..|t.readBuf|] == t.readBuf && t.readBuf[|t.readBuf|..] == [];
  }

  /** A round of the timer. */
  lemma RetransmitTable(t: Tcb)
    ensures Retransmit(Mod32, t)
         == if t.haveUnacked && t.unackedData != [] then
              t.(outbox := t.outbox + [Out(t, t.unackedSeq, F_PSH_ACK, [], t.unackedData)])
            else t
  {
  }

  // --- Segments, before the window test counts ------------------------------------------------

  /** A connection with a peer takes nothing from anyone else. */
  lemma StrangerTable(t: Tcb, seg: TcpSegment, srcIp: Ip, iss: nat)
    requires t.state !in {CLOSED, LISTEN} && !(seg.srcPort == t.remotePort && t.remoteIp == Some(srcIp))
    ensures OnSegment(Mod32, t, seg, srcIp, iss) == (t, false)
  {
  }

  predicate FromPeerOf(t: Tcb, seg: TcpSegment, srcIp: Ip) {
    t.state in {CLOSED, LISTEN} || (seg.srcPort == t.remotePort && t.remoteIp == Some(srcIp))
  }

  /** A RST ends the connection, in SYN_SENT if and only if it acknowledges the SYN; otherwise
      nothing changes.  CLOSED and LISTEN obey it too, from any address, where section 3.10.7
      has them ignore it. */
  lemma RstTable(t: Tcb, seg: TcpSegment, srcIp: Ip, iss: nat)
    requires FromPeerOf(t, seg, srcIp) && seg.flags.rst
    ensures OnSegment(Mod32, t, seg, srcIp, iss)
         == if t.state == SYN_SENT && !(seg.flags.ack && seg.ackNo == (t.iss + 1) % M32) then (t, false)
            else (t.(state := CLOSED, aborted := true, abortedIn := Some(t.state)), true)
  {
    hide OnListen, OnSynSent, OnSynReceived, OnEstablished;
  }

  /** Section 3.10.7.1; the RST the standard asks for is not sent. */
  lemma ClosedTable(t: Tcb, seg: TcpSegment, srcIp: Ip, iss: nat)
    requires t.state == CLOSED && !seg.flags.rst
    ensures OnSegment(Mod32, t, seg, srcIp, iss) == (t, false)
  {
  }

  /** The MSS a SYN advertises, at least 536. */
  function MssFrom(t: Tcb, seg: TcpSegment): nat {
    match GetOption(OptionsFrom(seg.options, 0), 2)
    case Some(raw) =>
      if |raw| != 2 then t.peerMss
      else if raw[0] as int * 256 + raw[1] < 536 then 536 else raw[0] as int * 256 + raw[1]
    case None => t.peerMss
  }

  function SynTaken(t: Tcb, seg: TcpSegment): Tcb {
    t.(irs := seg.seqNo, rcvNxt := (seg.seqNo + 1) % M32, peerMss := MssFrom(t, seg))
  }

  lemma LatchTable(t: Tcb, seg: TcpSegment)
    requires seg.flags.syn
    ensures Latch(Mod32, t, seg) == SynTaken(t, seg)
  {
    hide GetOption, OptionsFrom;
  }

  /** Section 3.10.7.2: an ACK is answered by a RST, a SYN by SYN+ACK. */
  lemma ListenTable(t: Tcb, seg: TcpSegment, srcIp: Ip, iss: nat)
    requires t.state == LISTEN && !seg.flags.rst && iss < M32
    ensures var bound := SynTaken(t, seg).(remoteIp := Some(srcIp), remotePort := seg.srcPort);
            OnSegment(Mod32, t, seg, srcIp, iss) ==
            if seg.flags.ack then
              (t.(outbox := t.outbox + [TcpSegment(t.localPort, t.remotePort, seg.ackNo % M32, 0, F_RST, 0, [], [], 0)]), false)
            else if !seg.flags.syn then (t, false)
            else
              (bound.(state := SYN_RECEIVED, iss := iss, sndUna := iss, sndNxt := (iss + 1) % M32,
                      outbox := t.outbox + [Out(bound, iss, F_SYN_ACK, MssOption(t.localMss), [])]), true)
  {
    if seg.flags.syn { LatchTable(t, seg); }
    MssOptionIs(t.localMss);
    hide Latch, SynTaken, BuildMssOption, MssOption, OnSynSent, OnSynReceived, OnEstablished;
    SynTakenFrame(t, seg);
  }

  lemma SynTakenFrame(t: Tcb, seg: TcpSegment)
    ensures var u := SynTaken(t, seg);
            u == t.(irs := u.irs, rcvNxt := u.rcvNxt, peerMss := u.peerMss)
  {
    hide MssFrom;
  }

  /** Does the segment acknowledge something new? */
  predicate NewAck(t: Tcb, seg: TcpSegment) {
    seg.flags.ack && SeqInWindow(Mod32, seg.ackNo, (t.sndUna + 1) % M32, (t.sndNxt + 1) % M32)
  }

  function Acknowledged(t: Tcb, seg: TcpSegment): Tcb { t.(sndUna := seg.ackNo, sndWnd := seg.window) }

  /** An ACK of what is expected now, queued. */
  function AckSent(t: Tcb): Tcb { t.(outbox := t.outbox + [Out(t, t.sndNxt, F_ACK, [], [])]) }

  lemma PureAckIs(t: Tcb)
    ensures EmitPureAck(Mod32, t) == AckSent(t)
  {
  }

  /** A repeated SYN+ACK carries the ISS again. */
  function SynAckAgain(t: Tcb): Tcb {
    t.(outbox := t.outbox + [Out(t, t.iss, F_SYN_ACK, MssOption(t.localMss), [])])
  }

  lemma SynAckIs(t: Tcb)
    ensures EmitSynAck(Mod32, t) == SynAckAgain(t)
  {
    MssOptionIs(t.localMss);
    hide BuildMssOption, MssOption;
  }

  /** Section 3.10.7.3: a SYN+ACK of our SYN establishes the connection, acknowledges, and lets the
      first block go; a SYN alone is a simultaneous open. */
  lemma SynSentTable(t: Tcb, seg: TcpSegment, srcIp: Ip, iss: nat)
    requires t.state == SYN_SENT && FromPeerOf(t, seg, srcIp) && !seg.flags.rst
    requires t.sndNxt < M32 && SynTaken(t, seg).peerMss > 0
    ensures OnSegment(Mod32, t, seg, srcIp, iss) ==
            if !seg.flags.syn || (seg.flags.ack && !NewAck(t, seg)) then (t, false)
            else if seg.flags.ack then
              (Buffered(AckSent(Acknowledged(SynTaken(t, seg), seg)).(state := ESTABLISHED), t.sendBuf), true)
            else (SynAckAgain(SynTaken(t, seg)).(state := SYN_RECEIVED), true)
  {
    if seg.flags.syn {
      LatchTable(t, seg);
      SynTakenFrame(t, seg);
      var t1 := Acknowledged(SynTaken(t, seg), seg);
      PureAckIs(t1);
      SynAckIs(SynTaken(t, seg));
      FlushTable(AckSent(t1).(state := ESTABLISHED));
    }
    hide Latch, SynTaken, EmitPureAck, EmitSynAck, FlushSend, Buffered, SynAckAgain, Out, OnListen, OnSynReceived, OnEstablished, SeqInWindow;
  }

  /** The payload and the FIN of a segment, taken: the stream first, each with its ACK. */
  function PayloadTaken(t: Tcb, payload: bytes): Tcb {
    AckSent(t.(readBuf := t.readBuf + payload, rcvNxt := (t.rcvNxt + |payload|) % M32))
  }

  function FinTaken(t: Tcb, state: State): Tcb {
    AckSent(t.(finReceived := true, rcvNxt := (t.rcvNxt + 1) % M32)).(state := state)
  }

  lemma PayloadIs(t: Tcb, seg: TcpSegment)
    ensures TakePayload(Mod32, t, seg) == PayloadTaken(t, seg.payload)
  {
    PureAckIs(t.(readBuf := t.readBuf + seg.payload, rcvNxt := (t.rcvNxt + |seg.payload|) % M32));
    hide EmitPureAck, AckSent;
  }

  /** The state a FIN leads to; acked tells whether this side's own FIN is acknowledged. */
  function AfterFinIn(s: State, acked: bool): State {
    match s
    case ESTABLISHED => CLOSE_WAIT
    case FIN_WAIT_1 => if acked then TIME_WAIT else CLOSING
    case FIN_WAIT_2 => TIME_WAIT
    case _ => s
  }

  lemma PeerFinIs(t: Tcb)
    ensures HandlePeerFin(Mod32, t)
         == if t.finReceived then t else FinTaken(t, AfterFinIn(t.state, t.finSent && t.sndUna == t.sndNxt))
  {
    var t1 := t.(finReceived := true, rcvNxt := (t.rcvNxt + 1) % M32);
    PureAckIs(t1);
    AckSentFrame(t1);
    hide EmitPureAck, AckSent;
  }

  lemma AckSentFrame(t: Tcb)
    ensures AckSent(t) == t.(outbox := AckSent(t).outbox)
  {
    hide Out;
  }

  /** Payload and FIN of the segment that ends the handshake: taken whatever their number. */
  function FirstDataTaken(t: Tcb, seg: TcpSegment): Tcb {
    var t1 := if seg.payload == [] then t else PayloadTaken(t, seg.payload);
    if seg.flags.fin then FinTaken(t1, CLOSE_WAIT) else t1
  }

  lemma FirstDataIs(t: Tcb, seg: TcpSegment)
    requires t.state == ESTABLISHED && !t.finReceived && t.sndNxt < M32 && t.peerMss > 0
    ensures TakeFirstData(Mod32, t, seg) == Buffered(FirstDataTaken(t, seg), t.sendBuf)
  {
    var t1 := if seg.payload == [] then t else PayloadTaken(t, seg.payload);
    PayloadIs(t, seg);
    PeerFinIs(t1);
    TakenFrame(t, seg.payload);
    TakenFrame(t1, []);
    FlushTable(FirstDataTaken(t, seg));
    hide TakePayload, HandlePeerFin, FlushSend, Buffered, PayloadTaken, FinTaken;
  }

  /** Section 3.10.7.4, SYN-RECEIVED: a repeated SYN is answered again; the ACK of our SYN establishes
      the connection. */
  lemma SynReceivedTable(t: Tcb, seg: TcpSegment, srcIp: Ip, iss: nat)
    requires t.state == SYN_RECEIVED && FromPeerOf(t, seg, srcIp) && !seg.flags.rst && !t.finReceived
    requires t.sndNxt < M32 && t.peerMss > 0
    ensures OnSegment(Mod32, t, seg, srcIp, iss) ==
            if seg.flags.syn && !seg.flags.ack then (SynAckAgain(t), true)
            else if !seg.flags.ack || seg.ackNo != (t.iss + 1) % M32 then (t, false)
            else (Buffered(FirstDataTaken(Acknowledged(t, seg).(state := ESTABLISHED), seg), t.sendBuf), true)
  {
    SynAckIs(t);
    FirstDataIs(Acknowledged(t, seg).(state := ESTABLISHED), seg);
    hide TakeFirstData, EmitSynAck, Buffered, SynAckAgain, FirstDataTaken;
    hide OnListen, OnSynSent, OnEstablished;
  }

  // What taking a payload, or a FIN, leaves alone.
  lemma TakenFrame(t: Tcb, payload: bytes)
    ensures var u := PayloadTaken(t, payload);
            u == t.(readBuf := t.readBuf + payload, rcvNxt := (t.rcvNxt + |payload|) % M32, outbox := u.outbox)
    ensures forall s :: var u := FinTaken(t, s);
              u == t.(finReceived := true, rcvNxt := (t.rcvNxt + 1) % M32, state := s, outbox := u.outbox)
  {
    hide Out;
  }

  /** TIME-WAIT: a FIN that comes again is acknowledged again. */
  lemma TimeWaitTable(t: Tcb, seg: TcpSegment, srcIp: Ip, iss: nat)
    requires t.state == TIME_WAIT && FromPeerOf(t, seg, srcIp) && !seg.flags.rst
    ensures OnSegment(Mod32, t, seg, srcIp, iss) == (if seg.flags.fin then AckSent(t) else t, true)
  {
    PureAckIs(t);
    hide EmitPureAck, AckSent, OnListen, OnSynSent, OnSynReceived, OnEstablished;
  }

  // --- The window test and the six states behind it ----------------------------------------------

  /** Empty segments pass; others must begin in the receive window, of at least one number. */
  predicate Acceptable(t: Tcb, seg: TcpSegment) {
    seg.SegmentLength() == 0
    || SeqInWindow(Mod32, seg.seqNo, t.rcvNxt, (t.rcvNxt + if t.rcvWnd > 1 then t.rcvWnd else 1) % M32)
  }

  /** A new acknowledgment moves snd_una; it clears the block when it ends where the block ends. */
  function AckTaken(t: Tcb, seg: TcpSegment): Tcb {
    if !NewAck(t, seg) then t
    else if t.haveUnacked && seg.ackNo == (t.unackedSeq + |t.unackedData|) % M32 then
      Acknowledged(t, seg).(unackedData := [], haveUnacked := false)
    else Acknowledged(t, seg)
  }

  /** The next bytes are taken and acknowledged; others are only answered by an ACK. */
  function DataTaken(t: Tcb, seg: TcpSegment): Tcb {
    if seg.payload == [] then t
    else if seg.seqNo == t.rcvNxt then PayloadTaken(t, seg.payload)
    else AckSent(t)
  }

  /** A FIN right after what has been taken is consumed, once. */
  function FinConsumed(t: Tcb, seg: TcpSegment): Tcb {
    if seg.flags.fin && !t.finReceived && seg.seqNo + |seg.payload| == t.rcvNxt then
      FinTaken(t, AfterFinIn(t.state, t.finSent && t.sndUna == t.sndNxt))
    else t
  }

  /** Where an acknowledged FIN leads. */
  function AckedFinIn(t: Tcb): State {
    if !(t.finSent && t.sndUna == t.sndNxt) then t.state
    else
      match t.state
      case FIN_WAIT_1 => if t.finReceived then TIME_WAIT else FIN_WAIT_2
      case CLOSING => TIME_WAIT
      case LAST_ACK => CLOSED
      case s => s
  }

  predicate TestsWindow(s: State) { s in {ESTABLISHED, FIN_WAIT_1, FIN_WAIT_2, CLOSE_WAIT, CLOSING, LAST_ACK} }

  /** ACK, data and FIN in that order, the transitions of an acknowledged FIN, and in
      ESTABLISHED the next block. */
  function WorkedThrough(t: Tcb, seg: TcpSegment): Tcb {
    var t1 := FinConsumed(DataTaken(AckTaken(t, seg), seg), seg);
    var t2 := t1.(state := AckedFinIn(t1));
    if t2.state == ESTABLISHED then Buffered(t2, t2.sendBuf) else t2
  }

  /** Section 3.10.7.4: what fails the window test is answered by an ACK, the rest is worked through. */
  lemma WindowTable(t: Tcb, seg: TcpSegment, srcIp: Ip, iss: nat)
    requires TestsWindow(t.state) && FromPeerOf(t, seg, srcIp) && !seg.flags.rst && seg.ackNo < M32
    requires t.sndNxt < M32 && t.peerMss > 0
    ensures OnSegment(Mod32, t, seg, srcIp, iss) ==
            if Acceptable(t, seg) then (WorkedThrough(t, seg), true) else (AckSent(t), false)
  {
    StagesAre(t, seg);
    TestIs(t, seg);
    PureAckIs(t);
    hide OnSegment, OnEstablished, TakeAck, TakeData, TakeFin, WorkedThrough, Acceptable, AckSent, EmitPureAck;
    Dispatch(t, seg, srcIp, iss);
  }

  lemma Dispatch(t: Tcb, seg: TcpSegment, srcIp: Ip, iss: nat)
    requires TestsWindow(t.state) && FromPeerOf(t, seg, srcIp) && !seg.flags.rst
    ensures OnSegment(Mod32, t, seg, srcIp, iss) == OnEstablished(Mod32, t, seg)
  {
    hide OnListen, OnSynSent, OnSynReceived, OnEstablished;
  }

  lemma TestIs(t: Tcb, seg: TcpSegment)
    ensures OnEstablished(Mod32, t, seg)
         == if Acceptable(t, seg) then (TakeFin(Mod32, TakeData(Mod32, TakeAck(Mod32, t, seg), seg), seg), true)
            else (EmitPureAck(Mod32, t), false)
  {
    hide TakeAck, TakeData, TakeFin, EmitPureAck, SeqInWindow;
  }

  lemma StagesAre(t: Tcb, seg: TcpSegment)
    requires seg.ackNo < M32 && t.sndNxt < M32 && t.peerMss > 0
    ensures TakeFin(Mod32, TakeData(Mod32, TakeAck(Mod32, t, seg), seg), seg) == WorkedThrough(t, seg)
  {
    AckStage(t, seg);
    DataStage(AckTaken(t, seg), seg);
    StagesKeep(t, seg);
    FinStage(DataTaken(AckTaken(t, seg), seg), seg);
    hide TakeAck, TakeData, TakeFin, AckTaken, DataTaken, FinConsumed, Buffered, AckedFinIn;
  }

  lemma AckStage(t: Tcb, seg: TcpSegment)
    requires seg.ackNo < M32
    ensures TakeAck(Mod32, t, seg) == AckTaken(t, seg)
  {
    if NewAck(t, seg) { ClearStage(Acknowledged(t, seg)); }
    hide SeqInWindow, ClearAcked;
  }

  lemma ClearStage(t: Tcb)
    requires t.sndUna < M32
    ensures ClearAcked(Mod32, t)
         == if t.haveUnacked && t.sndUna == (t.unackedSeq + |t.unackedData|) % M32 then t.(unackedData := [], haveUnacked := false)
            else t
  {
    var end := (t.unackedSeq + |t.unackedData|) % M32;
    if SeqInWindow(Mod32, end, t.sndUna, (t.sndUna + 1) % M32) { OnlyOne(end, t.sndUna); }
    hide SeqInWindow;
  }

  /** A window of one number holds that number only. */
  lemma OnlyOne(x: nat, y: nat)
    requires x < M32 && y < M32 && SeqInWindow(Mod32, x, y, (y + 1) % M32)
    ensures x == y
  {
    NormStep(y, 1);
    WindowExact(x, y, y + 1);
  }

  lemma DataStage(t: Tcb, seg: TcpSegment)
    ensures TakeData(Mod32, t, seg) == DataTaken(t, seg)
  {
    PayloadIs(t, seg);
    PureAckIs(t);
    hide TakePayload, PayloadTaken, EmitPureAck, AckSent;
  }

  lemma FinStage(t: Tcb, seg: TcpSegment)
    requires t.sndNxt < M32 && t.peerMss > 0
    ensures var t1 := FinConsumed(t, seg);
            var t2 := t1.(state := AckedFinIn(t1));
            TakeFin(Mod32, t, seg) == if t2.state == ESTABLISHED then Buffered(t2, t2.sendBuf) else t2
  {
    var t1 := FinConsumed(t, seg);
    PeerFinIs(t);
    TakenFrame(t, []);
    TransitionsIs(t1);
    hide HandlePeerFin, FinTaken, CloseTransitions, FlushSend, Buffered, AckedFinIn, FinAcked;
    assert t1.sndNxt == t.sndNxt && t1.peerMss == t.peerMss;
    FlushTable(t1.(state := AckedFinIn(t1)));
  }

  lemma TransitionsIs(t: Tcb)
    ensures CloseTransitions(t) == t.(state := AckedFinIn(t))
  {
  }

  lemma StagesKeep(t: Tcb, seg: TcpSegment)
    ensures var u := DataTaken(AckTaken(t, seg), seg); u.sndNxt == t.sndNxt && u.peerMss == t.peerMss
  {
    var v := AckTaken(t, seg);
    TakenFrame(v, seg.payload);
    AckSentFrame(v);
    hide PayloadTaken, AckSent, NewAck;
  }
}