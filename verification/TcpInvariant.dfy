/** What every step of two connections keeps, stated on the unbounded machine.

    The code states none of this: it ties the fields of one endpoint to those
    of the other and to every segment that was ever sent. */
module TcpInvariant {
  import opened Bytes
  import opened SeqArith
  import opened Segment
  import opened TcpMachine
  import opened TcpNetwork

  /** This side has a peer, and so an ISS, and has sent its SYN. */
  predicate Bound(t: Tcb) { t.remoteIp != None }

  /** This side has taken its peer's ISS from a SYN. */
  predicate Latched(t: Tcb) { t.rcvNxt != t.irs }

  /** How many of the bytes written have left the send buffer. */
  function Emitted(x: Node): int { |x.written| - |x.tcb.sendBuf| }

  /** Past the exchange of SYNs, and not closed. */
  predicate Synced(t: Tcb) { t.state !in {CLOSED, LISTEN, SYN_SENT} }

  /** The states in which segments are tested against the receive window. */
  predicate Windowed(t: Tcb) { Synced(t) && t.state !in {SYN_RECEIVED, TIME_WAIT} }

  function Bit(b: bool): nat { if b then 1 else 0 }

  /** The sequence number after the last byte emitted. */
  function DataEnd(x: Node): int { x.tcb.iss + 1 + Emitted(x) }

  /** The sender's own books. */
  predicate SenderOk(x: Node) {
    var t := x.tcb;
    && |t.sendBuf| <= |x.written| && t.sendBuf == x.written[Emitted(x)..]
    && t.sndNxt == (if Bound(t) then DataEnd(x) + Bit(t.finSent) else 0)
    && t.iss <= t.sndUna <= t.sndNxt
    && (!Bound(t) ==> t.iss == 0 && Emitted(x) == 0 && !t.haveUnacked && !t.finSent)
    && (!t.haveUnacked ==> Emitted(x) == 0 || t.sndUna >= DataEnd(x))
    && (t.haveUnacked ==> BlockOk(x))
  }

  /** The outstanding block is the last one emitted, and it is not fully acknowledged. */
  predicate BlockOk(x: Node)
    requires |x.tcb.sendBuf| <= |x.written|
  {
    var t := x.tcb;
    && t.iss < t.unackedSeq <= t.sndUna
    && t.sndUna != DataEnd(x)
    && t.unackedSeq < DataEnd(x) == t.unackedSeq + |t.unackedData|
    && t.unackedData == x.written[t.unackedSeq - t.iss - 1..Emitted(x)]
  }

  /** The receiver's own books. */
  predicate ReceiverOk(x: Node) {
    var t := x.tcb;
    && t.rcvWnd == 65535
    && t.irs <= t.rcvNxt
    && (Latched(t) ==> Bound(t) && t.peerMss >= 536)
    && (!Latched(t) ==> t.rcvNxt == 0 && x.Received() == [] && !t.finReceived)
  }

  /** Which flags and numbers go with which state (the diagram of RFC 9293 section 3.3.2). */
  predicate StateOk(x: Node) {
    var t := x.tcb;
    && (!x.started ==> t.state == CLOSED && !Bound(t))
    && match t.state
       case CLOSED => (t.finSent && !t.aborted ==> t.finReceived && FinAcked(t)) && (t.haveUnacked ==> Latched(t))
       case LISTEN => !Bound(t)
       case SYN_SENT => Bound(t) && !Latched(t) && !t.finSent && !t.finReceived && t.sndUna == t.iss && !t.haveUnacked
       case SYN_RECEIVED => Latched(t) && !t.finSent && !t.finReceived && t.sndUna == t.iss && t.rcvNxt == t.irs + 1
                            && !t.haveUnacked
       case ESTABLISHED => Latched(t) && !t.finSent && !t.finReceived && t.sndUna > t.iss
       case FIN_WAIT_1 => Latched(t) && t.finSent && !t.finReceived
       case FIN_WAIT_2 => Latched(t) && t.finSent && !t.finReceived && FinAcked(t)
       case CLOSE_WAIT => Latched(t) && !t.finSent && t.finReceived && t.sndUna > t.iss
       case CLOSING => Latched(t) && t.finSent && t.finReceived
       case LAST_ACK => Latched(t) && t.finSent && t.finReceived
       case TIME_WAIT => Latched(t) && t.finSent && t.finReceived && FinAcked(t)
  }

  /** Holds between calls, not in the middle of one: nothing is left to do. */
  predicate Settled(t: Tcb) {
    && (t.state == ESTABLISHED && !t.haveUnacked ==> t.sendBuf == [])
    && (t.state in {FIN_WAIT_1, CLOSING, LAST_ACK} ==> !FinAcked(t))
  }

  predicate Local(x: Node) {
    SenderOk(x) && ReceiverOk(x) && StateOk(x)
  }

  /** What is true of any segment x has sent, now and later. */
  predicate PktOk(seg: TcpSegment, x: Node) {
    var t := x.tcb;
    && Bound(t) && seg.srcPort == t.localPort && !seg.flags.rst
    && (seg.flags.ack ==> Latched(t) && t.irs < seg.ackNo <= t.rcvNxt)
    && (!seg.flags.ack ==> seg.flags.syn)
    && (if seg.flags.syn then SynOk(seg, x) else t.iss < seg.seqNo <= t.sndNxt)
    && (seg.flags.fin ==> t.finSent && seg.payload == [] && seg.seqNo == DataEnd(x))
    && (seg.payload != [] ==> SliceOk(seg, x))
  }

  predicate SynOk(seg: TcpSegment, x: Node) {
    seg.seqNo == x.tcb.iss && seg.payload == [] && !seg.flags.fin && seg.options == BuildMssOption(x.tcb.localMss)
  }

  /** A payload is the slice of the written stream its sequence number names. */
  predicate SliceOk(seg: TcpSegment, x: Node) {
    var from := seg.seqNo - x.tcb.iss - 1;
    0 <= from && from + |seg.payload| <= Emitted(x) <= |x.written|
    && seg.payload == x.written[from..from + |seg.payload|]
  }

  ghost predicate FirstBlockOnly(x: Node, sent: set<TcpSegment>) {
    && (x.tcb.haveUnacked ==> x.tcb.unackedSeq == x.tcb.iss + 1)
    && (forall seg :: seg in sent && seg.payload != [] ==> seg.seqNo == x.tcb.iss + 1)
  }

  /** What y has received is the beginning of what x has emitted. */
  predicate StreamOk(x: Node, y: Node) {
    && |y.Received()| <= Emitted(x) <= |x.written|
    && y.Received() == x.written[..|y.Received()|]
    && y.tcb.rcvNxt == y.tcb.irs + 1 + |y.Received()| + Bit(y.tcb.finReceived)
  }

  /** x as the sender, y as the receiver; sent is all that x ever sent. */
  ghost predicate Half(x: Node, y: Node, sent: set<TcpSegment>) {
    && (Bound(x.tcb) ==> x.tcb.remoteIp == Some(y.tcb.localIp) && x.tcb.remotePort == y.tcb.localPort)
    && (forall seg :: seg in sent ==> PktOk(seg, x))
    && (Latched(y.tcb) ==> Bound(x.tcb) && y.tcb.irs == x.tcb.iss && StreamOk(x, y))
    && (x.tcb.sndUna > x.tcb.iss ==> Latched(y.tcb) && x.tcb.sndUna <= y.tcb.rcvNxt)
    && (x.tcb.sndUna <= x.tcb.iss + 1 ==> FirstBlockOnly(x, sent))
    && (y.tcb.finReceived ==> x.tcb.finSent && FinInOrderOrFirst(x, y, sent))
  }

  /** Either everything arrived before the FIN, or the FIN overtook the first and only block. */
  ghost predicate FinInOrderOrFirst(x: Node, y: Node, sent: set<TcpSegment>) {
    |y.Received()| == Emitted(x) || (y.Received() == [] && FirstBlockOnly(x, sent))
  }

  function Pending(x: Node): set<TcpSegment> { set seg | seg in x.tcb.outbox }

  /** The invariant while x is in the middle of a call: its outbox counts as sent. */
  ghost predicate Core(x: Node, y: Node, xy: set<TcpSegment>, yx: set<TcpSegment>) {
    Local(x) && Local(y) && Half(x, y, xy + Pending(x)) && Half(y, x, yx)
  }

  ghost predicate Inv(s: Sys) {
    && Core(s.a, s.b, s.ab.sent, s.ba.sent)
    && Settled(s.a.tcb) && Settled(s.b.tcb) && s.a.tcb.outbox == [] && s.b.tcb.outbox == []
    && (forall seg :: seg in s.ab.flight ==> seg in s.ab.sent)
    && (forall seg :: seg in s.ba.flight ==> seg in s.ba.sent)
  }

  /** x' is x later: what was promised about x's segments stays true. */
  predicate Grows(x: Node, x': Node) {
    var t, t' := x.tcb, x'.tcb;
    && t'.localIp == t.localIp && t'.localPort == t.localPort && t'.localMss == t.localMss
    && (Bound(t) ==> t'.remoteIp == t.remoteIp && t'.remotePort == t.remotePort && t'.iss == t.iss)
    && x.written <= x'.written && 0 <= Emitted(x) <= Emitted(x') <= |x'.written| && Emitted(x) <= |x.written|
    && (t.finSent ==> t'.finSent && Emitted(x') == Emitted(x))
    && t.sndNxt <= t'.sndNxt
    && (Latched(t) ==> Latched(t') && t'.irs == t.irs && t.rcvNxt <= t'.rcvNxt)
  }

  lemma PktStays(seg: TcpSegment, x: Node, x': Node)
    requires PktOk(seg, x) && Grows(x, x')
    ensures PktOk(seg, x')
  {
    if seg.payload != [] {
      var from := seg.seqNo - x.tcb.iss - 1;
      assert x.written[from..from + |seg.payload|] == x'.written[from..from + |seg.payload|];
    }
  }
}
