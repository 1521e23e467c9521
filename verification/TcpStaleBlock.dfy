/** When an acknowledgment covers the outstanding block, is the block dropped?

    It is not if the same number also acknowledges the FIN: the comparison asks
    whether the ACK ends exactly where the block ends.  The block then stays
    outstanding although its peer has it, and the timer goes on resending it. */
module TcpStaleBlock {
  import opened Bytes
  import opened SeqArith
  import opened Segment
  import opened TcpMachine
  import opened TcpNetwork
  import opened TcpInvariant
  import opened TcpRefine
  import opened TcpSimulation
  import opened TcpTheorems
  import opened TcpHandshake
  import opened TcpOvertake

  /** The acknowledgment number lies at or beyond the end of the outstanding block. */
  predicate Covers(t: Tcb, seg: TcpSegment) {
    (seg.ackNo - t.unackedSeq) % M32 >= |t.unackedData|
  }

  /** In every reachable state: a new acknowledgment from the peer that covers the
      outstanding block clears it if and only if it does not also acknowledge a FIN. */
  lemma CoveredBlockClearedIff(c: Config, acts: seq<Action>, side: Side, seg: TcpSegment)
    requires SmallSys(Reach(c, acts)) && seg in Reach(c, acts).From(side).ba.sent
    requires var t := Reach(c, acts).From(side).a.tcb;
             t.haveUnacked && seg.flags.ack && AcksNew(Mod32, t, seg) && Covers(t, seg)
    ensures var t := Reach(c, acts).From(side).a.tcb;
            !TakeAck(Mod32, t, seg).haveUnacked <==> !(t.finSent && seg.ackNo == t.sndNxt)
  {
    var u := BehindBoth(c, acts);
    var v := u.From(side);
    hide AcksNew, TakeAck, Covers, Core, WrapTcb;
    var q := SentBehind(u, side, seg);
    ClearedAt(v.a, v.b, v.ab.sent, v.ba.sent, q);
  }

  lemma ClearedAt(x: Node, y: Node, xy: set<TcpSegment>, yx: set<TcpSegment>, q: TcpSegment)
    requires Core(x, y, xy, yx) && Small(x) && q in yx && q.flags.ack && x.tcb.haveUnacked
    requires AcksNew(Mod32, WrapTcb(x.tcb), WrapSeg(q)) && Covers(WrapTcb(x.tcb), WrapSeg(q))
    ensures var t := WrapTcb(x.tcb);
            !TakeAck(Mod32, t, WrapSeg(q)).haveUnacked <==> !(t.finSent && W(q.ackNo) == t.sndNxt)
  {
    CoreNear(x, y, xy, yx);
    AckWithinReach(x, y, xy, yx, q);
    hide Core, AcksNew, TakeAck, Covers;
    ClearedExactly(x, q);
  }

  lemma AckWithinReach(x: Node, y: Node, xy: set<TcpSegment>, yx: set<TcpSegment>, seg: TcpSegment)
    requires Core(x, y, xy, yx) && seg in yx && seg.flags.ack
    ensures SenderOk(x) && Bound(x.tcb) && x.tcb.iss < seg.ackNo <= x.tcb.sndNxt
  {
    assert PktOk(seg, y) && StreamOk(x, y);
  }

  lemma ClearedExactly(x: Node, q: TcpSegment)
    requires Near(x.tcb) && SenderOk(x) && Bound(x.tcb) && x.tcb.iss < q.ackNo <= x.tcb.sndNxt && q.flags.ack
    requires x.tcb.haveUnacked
    requires AcksNew(Mod32, WrapTcb(x.tcb), WrapSeg(q)) && Covers(WrapTcb(x.tcb), WrapSeg(q))
    ensures !TakeAck(Mod32, WrapTcb(x.tcb), WrapSeg(q)).haveUnacked
       <==> !(x.tcb.finSent && W(q.ackNo) == WrapTcb(x.tcb).sndNxt)
  {
    var t := x.tcb;
    AcksNewExact(t, q);
    ClearsAtEnd(WrapTcb(t), WrapSeg(q));
    Fields(t);
    BlockEnds(x);
    hide SenderOk, WrapTcb, ClearAcked, TakeAck, Norm;
    WhichEnd(t.unackedSeq, |t.unackedData|, q.ackNo, t.sndNxt, t.finSent);
  }

  lemma BlockEnds(x: Node)
    requires SenderOk(x) && Bound(x.tcb) && x.tcb.haveUnacked
    ensures var t := x.tcb;
            t.unackedSeq <= t.sndUna && t.sndNxt == t.unackedSeq + |t.unackedData| + Bit(t.finSent)
  {
  }

  /** Between the start of the block and snd_nxt the 32-bit comparisons are exact. */
  lemma WhichEnd(from: nat, n: nat, ack: nat, next: nat, fin: bool)
    requires from < ack <= next == from + n + Bit(fin) && n < M32 - 1
    requires (W(ack) - W(from)) % M32 >= n
    ensures W(W(from) + n) == W(ack) <==> !(fin && W(ack) == W(next))
  {
    ModOffset(ack, from);
    NormStep(from, n);
    NormEqual(from + n, ack);
    NormEqual(next, ack);
  }

  /** The 32-bit test asks for equality with the end of the block. */
  lemma ClearsAtEnd(t: Tcb, seg: TcpSegment)
    requires t.haveUnacked && seg.flags.ack && AcksNew(Mod32, t, seg) && seg.ackNo < M32
    ensures TakeAck(Mod32, t, seg).haveUnacked <==> Norm(Mod32, t.unackedSeq + |t.unackedData|) != seg.ackNo
  {
    var end := Norm(Mod32, t.unackedSeq + |t.unackedData|);
    if SeqInWindow(Mod32, end, seg.ackNo, Norm(Mod32, seg.ackNo + 1)) { OneNumber(end, seg.ackNo); }
    hide AcksNew;
  }

  lemma OneNumber(x: nat, y: nat)
    requires x < M32 && y < M32 && SeqInWindow(Mod32, x, y, Norm(Mod32, y + 1))
    ensures x == y
  {
    NormStep(y, 1);
    WindowExact(x, y, y + 1);
  }

  // --- A run that leaves the block behind ---------------------------------------------------

  // The data and the FIN arrive in order; the ACK of the FIN overtakes the ACK of the data.
  const LATE: seq<Action> := SENT + [Deliver(B, 1, 0)] + [Deliver(B, 1, 0)] + [Deliver(A, 1, 0)]

  function ServerHasData(): Tcb {
    Server2(SERVER, CLIENT).(state := ESTABLISHED, sndUna := 1, rcvNxt := 2, readBuf := [7])
  }
  function ServerHasFin(): Tcb { ServerHasData().(state := CLOSE_WAIT, rcvNxt := 3, finReceived := true) }
  function ClientAcked(): Tcb { Client4().(sndUna := 3, state := FIN_WAIT_2) }

  function DatasAck(): TcpSegment { Seg(SERVER, CLIENT, 1, 2, ACK, []) }
  function BothAcked(): TcpSegment { Seg(SERVER, CLIENT, 1, 3, ACK, []) }

  lemma ServerTakesData()
    ensures OnSegment(Mod32, Server2(SERVER, CLIENT), Data(), 1, 0).0 == ServerHasData().(outbox := [DatasAck()])
  {
    assert [] + Data().payload == [7];
    hide OnListen, OnSynSent, OnEstablished;
  }

  lemma ServerTakesFinInOrder()
    ensures OnSegment(Mod32, ServerHasData(), Fin(), 1, 0).0 == ServerHasFin().(outbox := [BothAcked()])
  {
    ServerAckFirst();
    ServerFinLast();
    hide TakeAck, TakeData, TakeFin;
    hide OnListen, OnSynSent, OnSynReceived;
  }

  lemma ServerAckFirst()
    ensures TakeAck(Mod32, ServerHasData(), Fin()) == ServerHasData()
    ensures TakeData(Mod32, ServerHasData(), Fin()) == ServerHasData()
  {
    assert !AcksNew(Mod32, ServerHasData(), Fin());
    hide AcksNew, ClearAcked;
  }

  lemma ServerFinLast()
    ensures TakeFin(Mod32, ServerHasData(), Fin()) == ServerHasFin().(outbox := [BothAcked()])
  {
    assert HandlePeerFin(Mod32, ServerHasData()) == ServerHasFin().(outbox := [BothAcked()]);
    hide HandlePeerFin;
  }

  lemma ClientTakesBoth()
    ensures OnSegment(Mod32, Client4(), BothAcked(), 2, 0).0 == ClientAcked()
  {
    var t := Client4().(sndUna := 3);
    assert TakeAck(Mod32, Client4(), BothAcked()) == t;
    assert TakeData(Mod32, t, BothAcked()) == t;
    assert TakeFin(Mod32, t, BothAcked()) == ClientAcked();
    hide TakeAck, TakeData, TakeFin;
    hide OnListen, OnSynSent, OnSynReceived;
  }

  lemma LateSteps(s6: Sys, s7: Sys, s8: Sys, s: Sys)
    requires s6.a == Node(Client4(), [7], [], true) && s6.b == Node(Server2(SERVER, CLIENT), [], [], true)
    requires s6.ab.flight == [FirstAck(), Data(), Fin()] && s6.ba.flight == []
    requires s7 == Step(Mod32, s6, Deliver(B, 1, 0)) && s8 == Step(Mod32, s7, Deliver(B, 1, 0))
    requires s == Step(Mod32, s8, Deliver(A, 1, 0))
    ensures s.a == Node(ClientAcked(), [7], [], true) && s.b == Node(ServerHasFin(), [], [], true)
  {
    hide OnSegment, Step;
    ServerTakesData();
    DeliverStep(s6, B, 1, ServerHasData(), [DatasAck()]);
    ServerTakesFinInOrder();
    DeliverStep(s7, B, 1, ServerHasFin(), [BothAcked()]);
    ClientTakesBoth();
    assert ClientAcked() == ClientAcked().(outbox := []);
    DeliverStep(s8, A, 1, ClientAcked(), []);
  }

  /** The peer has the byte and the FIN and both are acknowledged, yet the block is still
      outstanding: the timer will send it again. */
  lemma BlockLeftBehind()
    ensures var s := Reach(C, LATE);
            && FinAcked(s.a.tcb) && HasAll(s.a, s.b) && s.b.Received() == [7]
            && s.a.tcb.haveUnacked && Retransmit(Mod32, s.a.tcb).outbox == [Data()]
  {
    var s6 := WriteAndClose();
    var s7 := Step(Mod32, s6, Deliver(B, 1, 0));
    var s8 := Step(Mod32, s7, Deliver(B, 1, 0));
    var s := Step(Mod32, s8, Deliver(A, 1, 0));
    RunSnoc(Start(C), SENT, Deliver(B, 1, 0));
    RunSnoc(Start(C), SENT + [Deliver(B, 1, 0)], Deliver(B, 1, 0));
    RunSnoc(Start(C), SENT + [Deliver(B, 1, 0)] + [Deliver(B, 1, 0)], Deliver(A, 1, 0));
    StaleBlock();
    hide Run, Step, Client4, ServerHasData, ServerHasFin, ClientAcked, Retransmit, FinAcked;
    LateSteps(s6, s7, s8, s);
    assert [] + ServerHasFin().readBuf == [7] && [7][..1] == [7];
  }

  lemma StaleBlock()
    ensures FinAcked(ClientAcked()) && ClientAcked().haveUnacked && ClientAcked().sendBuf == []
    ensures ServerHasFin().finReceived && ServerHasFin().readBuf == [7]
    ensures Retransmit(Mod32, ClientAcked()).outbox == [Data().(ackNo := ClientAcked().rcvNxt)] == [Data()]
  {
    assert [] + [Data()] == [Data()];
  }
}
