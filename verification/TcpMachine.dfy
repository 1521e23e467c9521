/** The connection's transitions as functions on its control block.

    Class TcpState updates its fields in place; each of its methods is proved to
    compute the function of the same name below.  What the protocol promises
    is proved about these functions. */
module TcpMachine {
  import opened Bytes
  import opened SeqArith
  import opened Segment

  datatype State =
    | CLOSED | LISTEN | SYN_SENT | SYN_RECEIVED | ESTABLISHED | FIN_WAIT_1
    | FIN_WAIT_2 | CLOSE_WAIT | CLOSING | LAST_ACK | TIME_WAIT

  // Addresses are compared, never parsed.
  type Ip = nat

  datatype Tcb = Tcb(
    localIp: Ip, localPort: nat, remoteIp: Option<Ip>, remotePort: nat,
    state: State,
    sndNxt: nat, sndUna: nat, iss: nat, sndWnd: nat,
    rcvNxt: nat, irs: nat, rcvWnd: nat,
    outbox: seq<TcpSegment>, readBuf: bytes, sendBuf: bytes,
    unackedData: bytes, unackedSeq: nat, haveUnacked: bool,
    localMss: nat, peerMss: nat,
    finReceived: bool, finSent: bool,
    aborted: bool, abortedIn: Option<State>)

  function Init(localIp: Ip, localPort: nat, mss: nat): Tcb {
    Tcb(localIp, localPort, None, 0, CLOSED, 0, 0, 0, 65535, 0, 0, 65535,
        [], [], [], [], 0, false, mss, mss, false, false, false, None)
  }

  // --- Emitting -----------------------------------------------------------

  function Push(t: Tcb, seg: TcpSegment): Tcb {
    t.(outbox := t.outbox + [seg])
  }

  function Plain(m: Arith, t: Tcb, seqNo: nat, flags: Flags, options: bytes, payload: bytes): TcpSegment {
    TcpSegment(t.localPort, t.remotePort, Norm(m, seqNo), Norm(m, t.rcvNxt), flags,
               t.rcvWnd % 0x1_0000, options, payload, 0)
  }

  function Emit(m: Arith, t: Tcb, flags: Flags, payload: bytes): Tcb {
    var options := if flags.syn then BuildMssOption(t.localMss) else [];
    Track(m, Transmit(m, t, Plain(m, t, t.sndNxt, flags, options, payload)), flags, payload)
  }

  function Transmit(m: Arith, t: Tcb, seg: TcpSegment): Tcb {
    Push(t, seg).(sndNxt := Norm(m, t.sndNxt + seg.SegmentLength()))
  }

  // The one outstanding block, kept for retransmission.
  function Track(m: Arith, t: Tcb, flags: Flags, payload: bytes): Tcb {
    var t1 := t.(finSent := t.finSent || flags.fin);
    if payload == [] then t1
    else t1.(unackedData := payload, unackedSeq := Back(m, t.sndNxt, |payload|), haveUnacked := true)
  }

  function Back(m: Arith, x: nat, n: nat): nat {
    if m == Mod32 then (x - n) % 0x1_0000_0000 else if n <= x then x - n else 0
  }

  // The RST a listener answers an ACK with.
  function EmitRst(m: Arith, t: Tcb, seqNo: nat): Tcb {
    Push(t, TcpSegment(t.localPort, t.remotePort, Norm(m, seqNo), 0, NO_FLAGS.(rst := true), 0, [], [], 0))
  }

  function EmitPureAck(m: Arith, t: Tcb): Tcb {
    Push(t, Plain(m, t, t.sndNxt, ACK, [], []))
  }

  // A SYN+ACK that repeats our SYN: its sequence number is the ISS.
  function EmitSynAck(m: Arith, t: Tcb): Tcb {
    Push(t, Plain(m, t, t.iss, SYN_ACK, BuildMssOption(t.localMss), []))
  }

  // --- User calls -----------------------------------------------------------

  function OpenActive(m: Arith, t: Tcb, remoteIp: Ip, remotePort: nat, iss: nat): Result<Tcb> {
    if t.state != CLOSED then ValueError
    else Ok(Emit(m, Bind(t, remoteIp, remotePort, iss), SYN, []).(state := SYN_SENT))
  }

  function Bind(t: Tcb, remoteIp: Ip, remotePort: nat, iss: nat): Tcb {
    t.(remoteIp := Some(remoteIp), remotePort := remotePort, iss := iss, sndNxt := iss, sndUna := iss)
  }

  function OpenListen(t: Tcb): Result<Tcb> {
    if t.state != CLOSED then ValueError else Ok(t.(state := LISTEN))
  }

  function Write(m: Arith, t: Tcb, data: bytes): Result<Tcb> {
    var t1 := t.(sendBuf := t.sendBuf + data);
    if t.state in {CLOSED, LISTEN, SYN_SENT, SYN_RECEIVED} then Ok(t1)
    else if t.state != ESTABLISHED then ValueError
    else Ok(FlushSend(m, t1))
  }

  function FlushSend(m: Arith, t: Tcb): Tcb {
    if t.sendBuf == [] || t.haveUnacked then t
    else
      var n := if |t.sendBuf| <= t.peerMss then |t.sendBuf| else t.peerMss;
      Emit(m, t.(sendBuf := t.sendBuf[n..]), ACK_PSH, t.sendBuf[..n])
  }

  function Close(m: Arith, t: Tcb): Tcb {
    match t.state
    case CLOSED | LISTEN | SYN_SENT => t.(state := CLOSED)
    case SYN_RECEIVED | ESTABLISHED => Emit(m, t, FIN_ACK, []).(state := FIN_WAIT_1)
    case CLOSE_WAIT => Emit(m, t, FIN_ACK, []).(state := LAST_ACK)
    case _ => t
  }

  function PopRead(t: Tcb, n: Option<nat>): (bytes, Tcb) {
    if n == None || n.value >= |t.readBuf| then (t.readBuf, t.(readBuf := []))
    else (t.readBuf[..n.value], t.(readBuf := t.readBuf[n.value..]))
  }

  // One round of the retransmit timer, after its wait: the outstanding block, once more.
  // The state was looked at before the wait, so it may be CLOSED by now.
  function Retransmit(m: Arith, t: Tcb): Tcb {
    if !t.haveUnacked || t.unackedData == [] then t
    else Push(t, Plain(m, t, t.unackedSeq, ACK_PSH, [], t.unackedData))
  }

  // --- One received segment -----------------------------------------------------

  /** iss is the random number the segment would draw if it is the SYN a listener accepts. */
  function OnSegment(m: Arith, t: Tcb, seg: TcpSegment, srcIp: Ip, iss: nat): (Tcb, bool) {
    if t.state != CLOSED && t.state != LISTEN && (seg.srcPort != t.remotePort || Some(srcIp) != t.remoteIp) then
      (t, false)
    else if seg.flags.rst then HandleRst(m, t, seg)
    else match t.state
      case CLOSED => (t, false)
      case LISTEN => OnListen(m, t, seg, srcIp, iss)
      case SYN_SENT => OnSynSent(m, t, seg)
      case SYN_RECEIVED => OnSynReceived(m, t, seg)
      case TIME_WAIT => (if seg.flags.fin then EmitPureAck(m, t) else t, true)
      case _ => OnEstablished(m, t, seg)
  }

  function HandleRst(m: Arith, t: Tcb, seg: TcpSegment): (Tcb, bool) {
    if t.state == SYN_SENT && (!seg.flags.ack || seg.ackNo != Norm(m, t.iss + 1)) then (t, false)
    else (t.(aborted := true, abortedIn := Some(t.state), state := CLOSED), true)
  }

  /** The most a peer that advertises mss is sent in one segment. */
  function AdoptedMss(mss: nat): nat { if mss % 0x1_0000 < 536 then 536 else mss % 0x1_0000 }

  function ReadPeerMss(t: Tcb, seg: TcpSegment): Tcb {
    if !seg.flags.syn then t
    else match GetOption(OptionsFrom(seg.options, 0), OPT_MSS)
      case None => t
      case Some(raw) => if |raw| != 2 then t else t.(peerMss := if ToU16(raw) < 536 then 536 else ToU16(raw))
  }

  function Latch(m: Arith, t: Tcb, seg: TcpSegment): Tcb {
    ReadPeerMss(t.(irs := seg.seqNo, rcvNxt := Norm(m, seg.seqNo + 1)), seg)
  }

  function OnListen(m: Arith, t: Tcb, seg: TcpSegment, srcIp: Ip, iss: nat): (Tcb, bool) {
    if seg.flags.ack then (EmitRst(m, t, seg.ackNo), false)
    else if !seg.flags.syn then (t, false)
    else
      var t1 := Bind(Latch(m, t, seg), srcIp, seg.srcPort, iss);
      (Emit(m, t1, SYN_ACK, []).(state := SYN_RECEIVED), true)
  }

  predicate AcksNew(m: Arith, t: Tcb, seg: TcpSegment) {
    SeqInWindow(m, seg.ackNo, Norm(m, t.sndUna + 1), Norm(m, t.sndNxt + 1))
  }

  function OnSynSent(m: Arith, t: Tcb, seg: TcpSegment): (Tcb, bool) {
    if seg.flags.ack && !AcksNew(m, t, seg) then (t, false)
    else if !seg.flags.syn then (t, false)
    else
      var t1 := Latch(m, t, seg);
      if seg.flags.ack then
        var t2 := EmitPureAck(m, t1.(sndUna := seg.ackNo, sndWnd := seg.window));
        (FlushSend(m, t2.(state := ESTABLISHED)), true)
      else
        (EmitSynAck(m, t1).(state := SYN_RECEIVED), true)
  }

  function TakePayload(m: Arith, t: Tcb, seg: TcpSegment): Tcb {
    EmitPureAck(m, t.(readBuf := t.readBuf + seg.payload, rcvNxt := Norm(m, t.rcvNxt + |seg.payload|)))
  }

  function OnSynReceived(m: Arith, t: Tcb, seg: TcpSegment): (Tcb, bool) {
    if seg.flags.syn && !seg.flags.ack then (EmitSynAck(m, t), true)
    else if !seg.flags.ack || seg.ackNo != Norm(m, t.iss + 1) then (t, false)
    else
      (TakeFirstData(m, t.(sndUna := seg.ackNo, sndWnd := seg.window, state := ESTABLISHED), seg), true)
  }

  // Neither the payload nor the FIN is checked against rcvNxt here.
  function TakeFirstData(m: Arith, t: Tcb, seg: TcpSegment): Tcb {
    var t1 := if seg.payload == [] then t else TakePayload(m, t, seg);
    FlushSend(m, if seg.flags.fin then HandlePeerFin(m, t1) else t1)
  }

  function TakeAck(m: Arith, t: Tcb, seg: TcpSegment): Tcb {
    if !seg.flags.ack || !AcksNew(m, t, seg) then t
    else ClearAcked(m, t.(sndUna := seg.ackNo, sndWnd := seg.window))
  }

  // The block is dropped when the ACK ends exactly where it ends, not when it reaches further.
  function ClearAcked(m: Arith, t: Tcb): Tcb {
    var end := Norm(m, t.unackedSeq + |t.unackedData|);
    if t.haveUnacked && (SeqInWindow(m, end, t.sndUna, Norm(m, t.sndUna + 1)) || end == t.sndUna)
    then t.(unackedData := [], haveUnacked := false)
    else t
  }

  function OnEstablished(m: Arith, t: Tcb, seg: TcpSegment): (Tcb, bool) {
    var width := if t.rcvWnd > 1 then t.rcvWnd else 1;
    if seg.SegmentLength() > 0 && !SeqInWindow(m, seg.seqNo, t.rcvNxt, Norm(m, t.rcvNxt + width)) then
      (EmitPureAck(m, t), false)
    else
      (TakeFin(m, TakeData(m, TakeAck(m, t, seg), seg), seg), true)
  }

  function TakeData(m: Arith, t: Tcb, seg: TcpSegment): Tcb {
    if seg.payload == [] then t
    else if seg.seqNo == t.rcvNxt then TakePayload(m, t, seg)
    else EmitPureAck(m, t)
  }

  function TakeFin(m: Arith, t: Tcb, seg: TcpSegment): Tcb {
    // This comparison is not reduced modulo 2^32.
    var t1 := if seg.flags.fin && seg.seqNo + |seg.payload| == t.rcvNxt then HandlePeerFin(m, t) else t;
    var t2 := CloseTransitions(t1);
    if t2.state == ESTABLISHED then FlushSend(m, t2) else t2
  }

  function CloseTransitions(t: Tcb): Tcb {
    var t1 := if t.state == FIN_WAIT_1 && FinAcked(t)
              then t.(state := if t.finReceived then TIME_WAIT else FIN_WAIT_2) else t;
    var t2 := if t1.state == CLOSING && FinAcked(t1) then t1.(state := TIME_WAIT) else t1;
    if t2.state == LAST_ACK && FinAcked(t2) then t2.(state := CLOSED) else t2
  }

  function HandlePeerFin(m: Arith, t: Tcb): Tcb {
    if t.finReceived then t
    else AfterPeerFin(EmitPureAck(m, t.(finReceived := true, rcvNxt := Norm(m, t.rcvNxt + 1))))
  }

  function AfterPeerFin(t: Tcb): Tcb {
    t.(state := match t.state
                case ESTABLISHED => CLOSE_WAIT
                case FIN_WAIT_1 => if FinAcked(t) then TIME_WAIT else CLOSING
                case FIN_WAIT_2 => TIME_WAIT
                case s => s)
  }

  predicate FinAcked(t: Tcb) {
    t.finSent && t.sndUna == t.sndNxt
  }
}
