/** What never changes again once a side has stopped sending data.

    Only ESTABLISHED and the end of the handshake flush the send buffer.  A side
    that has left ESTABLISHED, because it closed or because its peer's FIN came
    first, keeps what is still buffered, in every continuation of the run. */
module TcpDoneSending {
  import opened Bytes
  import opened SeqArith
  import opened Segment
  import opened TcpMachine
  import opened TcpNetwork
  import opened TcpInvariant
  import opened TcpRefine
  import opened TcpSimulation
  import opened TcpTheorems

  predicate DoneSending(t: Tcb) {
    t.state in {CLOSED, FIN_WAIT_1, FIN_WAIT_2, CLOSE_WAIT, CLOSING, LAST_ACK, TIME_WAIT}
  }

  predicate FinDone(t: Tcb) { AfterFin(t) && FinAcked(t) }

  predicate SameBlock(t: Tcb, t': Tcb) {
    t'.haveUnacked == t.haveUnacked && t'.unackedData == t.unackedData && t'.unackedSeq == t.unackedSeq
  }

  /** t' is t later: no longer sending, and with the FIN acknowledged nothing outstanding moves either. */
  predicate Later(t: Tcb, t': Tcb) {
    DoneSending(t') && (FinDone(t) ==> FinDone(t') && SameBlock(t, t'))
  }

  predicate Keeps(t: Tcb, t': Tcb) { Later(t, t') && t'.sendBuf == t.sendBuf }

  predicate NodeKeeps(n: Node, n': Node) {
    Later(n.tcb, n'.tcb) && n'.started && Emitted(n') == Emitted(n) && n.written <= n'.written
  }

  // --- One segment ------------------------------------------------------------------------

  lemma KeepsOn(t: Tcb, t1: Tcb, t2: Tcb)
    requires Keeps(t, t1) && Keeps(t1, t2)
    ensures Keeps(t, t2)
  {
  }

  /** Only the fields of the receiving half and the queue differ. */
  predicate SenderSame(t: Tcb, t': Tcb) {
    && t'.state == t.state && t'.sendBuf == t.sendBuf && t'.finSent == t.finSent
    && t'.sndUna == t.sndUna && t'.sndNxt == t.sndNxt && SameBlock(t, t')
  }

  lemma SameKeeps(t: Tcb, t': Tcb)
    requires DoneSending(t) && SenderSame(t, t')
    ensures Keeps(t, t')
  {
  }

  lemma PureAckSame(m: Arith, t: Tcb)
    ensures SenderSame(t, EmitPureAck(m, t))
  {
    hide Plain;
  }

  lemma PayloadSame(m: Arith, t: Tcb, seg: TcpSegment)
    ensures SenderSame(t, TakePayload(m, t, seg))
  {
    PureAckSame(m, t.(readBuf := t.readBuf + seg.payload, rcvNxt := Norm(m, t.rcvNxt + |seg.payload|)));
    hide EmitPureAck, Norm;
  }

  /** With the FIN acknowledged the window of new acknowledgments is empty. */
  lemma NoneNew(m: Arith, t: Tcb, seg: TcpSegment)
    requires FinDone(t)
    ensures !AcksNew(m, t, seg)
  {
  }

  lemma TakeAckKeeps(m: Arith, t: Tcb, seg: TcpSegment)
    requires DoneSending(t)
    ensures Keeps(t, TakeAck(m, t, seg))
  {
    if FinDone(t) { NoneNew(m, t, seg); }
    hide AcksNew;
  }

  lemma TakeDataKeeps(m: Arith, t: Tcb, seg: TcpSegment)
    requires DoneSending(t)
    ensures Keeps(t, TakeData(m, t, seg))
  {
    PureAckSame(m, t);
    PayloadSame(m, t, seg);
    SameKeeps(t, TakeData(m, t, seg));
    hide EmitPureAck, TakePayload, Keeps;
  }

  lemma PeerFinKeeps(m: Arith, t: Tcb)
    requires DoneSending(t)
    ensures Keeps(t, HandlePeerFin(m, t))
  {
  }

  lemma TransitionsKeep(t: Tcb)
    requires DoneSending(t)
    ensures Keeps(t, CloseTransitions(t)) && CloseTransitions(t).state != ESTABLISHED
  {
  }

  lemma TakeFinKeeps(m: Arith, t: Tcb, seg: TcpSegment)
    requires DoneSending(t)
    ensures Keeps(t, TakeFin(m, t, seg))
  {
    var t1 := PeerFinTaken(m, t, seg);
    PeerFinTakenKeeps(m, t, seg);
    TransitionsKeep(t1);
    NothingFlushed(m, t, seg);
    KeepsOn(t, t1, CloseTransitions(t1));
    hide PeerFinTaken, CloseTransitions, TakeFin, DoneSending, Keeps;
  }

  lemma PeerFinTakenKeeps(m: Arith, t: Tcb, seg: TcpSegment)
    requires DoneSending(t)
    ensures Keeps(t, PeerFinTaken(m, t, seg)) && DoneSending(PeerFinTaken(m, t, seg))
  {
    PeerFinKeeps(m, t);
    SameKeeps(t, t);
    hide HandlePeerFin, FinDone, SameBlock;
  }

  lemma NothingFlushed(m: Arith, t: Tcb, seg: TcpSegment)
    requires CloseTransitions(PeerFinTaken(m, t, seg)).state != ESTABLISHED
    ensures TakeFin(m, t, seg) == CloseTransitions(PeerFinTaken(m, t, seg))
  {
    hide HandlePeerFin, CloseTransitions, FlushSend;
  }

  lemma EstablishedKeeps(m: Arith, t: Tcb, seg: TcpSegment)
    requires DoneSending(t)
    ensures Keeps(t, OnEstablished(m, t, seg).0)
  {
    TakeAckKeeps(m, t, seg);
    TakeDataKeeps(m, TakeAck(m, t, seg), seg);
    var t2 := TakeData(m, TakeAck(m, t, seg), seg);
    TakeFinKeeps(m, t2, seg);
    KeepsOn(t, TakeAck(m, t, seg), t2);
    KeepsOn(t, t2, TakeFin(m, t2, seg));
    PureAckSame(m, t);
    SameKeeps(t, EmitPureAck(m, t));
    hide TakeAck, TakeData, TakeFin, EmitPureAck, Keeps, SeqInWindow;
  }

  lemma RstKeeps(m: Arith, t: Tcb, seg: TcpSegment)
    requires DoneSending(t)
    ensures Keeps(t, HandleRst(m, t, seg).0)
  {
  }

  lemma SegmentKeepsBuffer(m: Arith, t: Tcb, seg: TcpSegment, srcIp: Ip, iss: nat)
    requires DoneSending(t)
    ensures Keeps(t, OnSegment(m, t, seg, srcIp, iss).0)
  {
    EstablishedKeeps(m, t, seg);
    RstKeeps(m, t, seg);
    PureAckSame(m, t);
    SameKeeps(t, EmitPureAck(m, t));
    SameKeeps(t, t);
    hide OnListen, OnSynSent, OnSynReceived, OnEstablished, HandleRst, EmitPureAck, Keeps;
  }

  // --- One action ---------------------------------------------------------------------------

  lemma ReceiveKeeps(m: Arith, n: Node, seg: TcpSegment, srcIp: Ip, iss: nat, out: Channel)
    requires DoneSending(n.tcb) && n.started
    ensures NodeKeeps(n, Receive(m, n, seg, srcIp, iss, out).0)
  {
    SegmentKeepsBuffer(m, n.tcb, seg, srcIp, iss);
    hide OnSegment;
  }

  /** A write is refused, or buffered in CLOSED: no byte more is emitted. */
  lemma UserKeeps(m: Arith, n: Node, peer: Node, out: Channel, inp: Channel, act: Action)
    requires DoneSending(n.tcb) && n.started
    requires act.DoWrite? || act.DoClose? || act.DoPopRead? || act.DoRetransmit?
    ensures NodeKeeps(n, Act(m, n, peer, out, inp, act).0)
  {
    hide Receive, OnSegment, OpenActive, OpenListen, Close, Write, Retransmit;
    match act
    case DoClose(_) => CloseKeepsBuffer(m, n.tcb);
    case DoRetransmit(_) => RetransmitKeeps(m, n.tcb);
    case DoWrite(_, data) => if Write(m, n.tcb, data).Ok? { WriteBuffers(m, n.tcb, data); }
    case DoPopRead(_, _) =>
  }

  lemma RetransmitKeeps(m: Arith, t: Tcb)
    requires DoneSending(t)
    ensures Keeps(t, Retransmit(m, t))
  {
    hide Plain;
  }

  lemma WriteBuffers(m: Arith, t: Tcb, data: bytes)
    requires DoneSending(t) && Write(m, t, data).Ok?
    ensures t.state == CLOSED && Write(m, t, data).value == t.(sendBuf := t.sendBuf + data)
  {
  }

  lemma CloseKeepsBuffer(m: Arith, t: Tcb)
    requires DoneSending(t)
    ensures Keeps(t, Close(m, t))
  {
    hide Plain;
  }

  lemma ActKeeps(m: Arith, n: Node, peer: Node, out: Channel, inp: Channel, act: Action)
    requires DoneSending(n.tcb) && n.started
    ensures NodeKeeps(n, Act(m, n, peer, out, inp, act).0)
  {
    hide Receive, Flush, DoneSending, FinDone, Foreign, Without;
    assert Later(n.tcb, n.tcb);
    match act
    case Deliver(_, i, iss) =>
      if i < |inp.flight| { ReceiveKeeps(m, n, inp.flight[i], peer.tcb.localIp, iss, out); }
    case Redeliver(_, seg, iss) => ReceiveKeeps(m, n, seg, peer.tcb.localIp, iss, out);
    case Inject(_, seg, srcIp) => ReceiveKeeps(m, n, seg, srcIp, 0, out);
    case DoOpenActive(_, _) =>
    case DoOpenListen(_) =>
    case Drop(_, _) =>
    case _ => UserKeeps(m, n, peer, out, inp, act);
  }

  lemma StepKeeps(s: Sys, act: Action, side: Side)
    requires DoneSending(s.From(side).a.tcb) && s.From(side).a.started
    ensures NodeKeeps(s.From(side).a, Step(Mod32, s, act).From(side).a)
  {
    var r := s.From(side);
    ActKeeps(Mod32, r.a, r.b, r.ab, r.ba, act);
    assert Later(r.a.tcb, r.a.tcb);
    hide Act;
  }

  // --- Every continuation ----------------------------------------------------------------------

  lemma NodeKeepsOn(n: Node, n1: Node, n2: Node)
    requires NodeKeeps(n, n1) && NodeKeeps(n1, n2)
    ensures NodeKeeps(n, n2)
  {
  }

  /** A side that has stopped sending emits nothing more, whatever happens. */
  lemma {:induction false} NothingMoreSent(c: Config, acts: seq<Action>, more: seq<Action>, side: Side)
    requires var n := Reach(c, acts).From(side).a; DoneSending(n.tcb) && n.started
    ensures NodeKeeps(Reach(c, acts).From(side).a, Reach(c, acts + more).From(side).a)
  {
    var n := Reach(c, acts).From(side).a;
    if more == [] {
      assert acts + more == acts;
    } else {
      var init, last := more[..|more| - 1], more[|more| - 1];
      NothingMoreSent(c, acts, init, side);
      ReachMore(c, acts, more);
      hide Reach, FinDone, SameBlock;
      StepKeeps(Reach(c, acts + init), last, side);
      NodeKeepsOn(n, Reach(c, acts + init).From(side).a, Reach(c, acts + more).From(side).a);
      hide Step;
    }
  }

  /** Streams only grow along a run. */
  lemma {:induction false} SmallBefore(c: Config, acts: seq<Action>, more: seq<Action>)
    requires SmallSys(Reach(c, acts + more))
    ensures SmallSys(Reach(c, acts))
  {
    if more == [] {
      assert acts + more == acts;
    } else {
      ReachMore(c, acts, more);
      StepWritten(Mod32, Reach(c, acts + more[..|more| - 1]), more[|more| - 1]);
      hide Step, Reach;
      SmallBefore(c, acts, more[..|more| - 1]);
    }
  }

  lemma OpenIsStarted(c: Config, acts: seq<Action>, side: Side)
    requires SmallSys(Reach(c, acts)) && Reach(c, acts).From(side).a.tcb.state != CLOSED
    ensures Reach(c, acts).From(side).a.started
  {
    var u := BehindBoth(c, acts);
    assert StateOk(u.a) && StateOk(u.b);
    hide Half, SenderOk, ReceiverOk;
  }

  // --- What a close leaves behind -----------------------------------------------------------------

  /** What the peer has once this side's FIN is acknowledged. */
  lemma AckedFinMeans(c: Config, acts: seq<Action>, side: Side)
    requires SmallSys(Reach(c, acts)) && FinAcked(Reach(c, acts).From(side).a.tcb)
    ensures var s := Reach(c, acts).From(side); HasAll(s.a, s.b) && BooksBalance(s.a)
  {
    GracefulClose(c, acts);
    SenderConservation(c, acts);
    hide Reach, HasAll, FinAcked, BooksBalance;
  }

  /** In every reachable state with this side's FIN acknowledged, the peer has all
      that was written if and only if the send buffer is empty. */
  lemma AllDeliveredIff(c: Config, acts: seq<Action>, side: Side)
    requires SmallSys(Reach(c, acts)) && FinAcked(Reach(c, acts).From(side).a.tcb)
    ensures var s := Reach(c, acts).From(side); s.b.Received() == s.a.written <==> s.a.tcb.sendBuf == []
  {
    AckedFinMeans(c, acts, side);
    hide Reach;
  }

  /** A close from a state that sends a FIN, once that FIN is acknowledged, has delivered
      what was emitted before the call, and so everything written before the
      call if and only if the send buffer was empty at the call. */
  lemma CloseDeliversIff(c: Config, acts: seq<Action>, more: seq<Action>, side: Side)
    requires Reach(c, acts).From(side).a.tcb.state in {SYN_RECEIVED, ESTABLISHED, CLOSE_WAIT}
    requires SmallSys(Reach(c, acts + [DoClose(side)] + more))
    requires FinAcked(Reach(c, acts + [DoClose(side)] + more).From(side).a.tcb)
    ensures var n, peer := Reach(c, acts).From(side).a, Reach(c, acts + [DoClose(side)] + more).From(side).b;
            && 0 <= Emitted(n) <= |n.written| && peer.Received() == n.written[..Emitted(n)]
            && (peer.Received() == n.written <==> n.tcb.sendBuf == [])
  {
    var closed := acts + [DoClose(side)];
    SmallBefore(c, closed, more);
    SmallBefore(c, acts, [DoClose(side)]);
    OpenIsStarted(c, acts, side);
    ReachMore(c, acts, [DoClose(side)]);
    assert acts + [] == acts;
    SenderConservation(c, acts);
    hide Reach;
    CloseStops(Reach(c, acts), side);
    NothingMoreSent(c, closed, more, side);
    AckedFinMeans(c, closed + more, side);
    hide Step, FinAcked, FinDone;
  }

  lemma CloseStops(s: Sys, side: Side)
    requires var n := s.From(side).a; n.started && n.tcb.state in {SYN_RECEIVED, ESTABLISHED, CLOSE_WAIT}
    ensures var n, n' := s.From(side).a, Step(Mod32, s, DoClose(side)).From(side).a;
            DoneSending(n'.tcb) && n'.started && n'.written == n.written && Emitted(n') == Emitted(n)
  {
    var n := s.From(side).a;
    CloseSends(n.tcb);
    hide Close;
  }

  lemma CloseSends(t: Tcb)
    requires t.state in {SYN_RECEIVED, ESTABLISHED, CLOSE_WAIT}
    ensures var t' := Close(Mod32, t); DoneSending(t') && t'.sendBuf == t.sendBuf
  {
    hide Plain;
  }

  /** After the peer's FIN nothing more is sent: a write raises in CLOSE_WAIT, and what was
      still buffered never reaches the peer, in any continuation. */
  lemma StrandedInCloseWait(c: Config, acts: seq<Action>, more: seq<Action>, side: Side)
    requires Reach(c, acts).From(side).a.tcb.state == CLOSE_WAIT
    requires SmallSys(Reach(c, acts + more))
    ensures var n, peer := Reach(c, acts).From(side).a, Reach(c, acts + more).From(side).b;
            && 0 <= Emitted(n) <= |n.written| && peer.Received() <= n.written[..Emitted(n)]
            && (n.tcb.sendBuf != [] ==> |peer.Received()| < |n.written|)
            && forall data :: Write(Mod32, n.tcb, data) == ValueError
  {
    SmallBefore(c, acts, more);
    OpenIsStarted(c, acts, side);
    SenderConservation(c, acts);
    ReceivedIsEmitted(c, acts + more, side);
    hide Reach;
    NothingMoreSent(c, acts, more, side);
  }

  /** Received is never more than what the peer has emitted. */
  lemma ReceivedIsEmitted(c: Config, acts: seq<Action>, side: Side)
    requires SmallSys(Reach(c, acts))
    ensures var s := Reach(c, acts).From(side);
            && |s.b.Received()| <= Emitted(s.a) <= |s.a.written| && s.b.Received() <= s.a.written
  {
    var u := BehindBoth(c, acts);
    StreamSafety(c, acts);
    EmittedHalf(u.a, u.b, u.ab.sent, u.ba.sent);
    EmittedHalf(u.b, u.a, u.ba.sent, u.ab.sent);
    hide Inv, WrapTcb, WrapChannel;
    WrapBuffers(u.a);
    WrapBuffers(u.b);
  }

  lemma EmittedHalf(x: Node, y: Node, xy: set<TcpSegment>, yx: set<TcpSegment>)
    requires Core(x, y, xy, yx)
    ensures |y.Received()| <= Emitted(x) <= |x.written|
  {
    if Latched(y.tcb) { assert StreamOk(x, y); }
  }

  // --- The block left outstanding ---------------------------------------------------------------

  /** A block still outstanding when the FIN is acknowledged stays so for good: in every
      continuation it is the same block, and every round of the timer queues it. */
  lemma StaleForever(c: Config, acts: seq<Action>, more: seq<Action>, side: Side)
    requires SmallSys(Reach(c, acts))
    requires var t := Reach(c, acts).From(side).a.tcb; FinAcked(t) && t.haveUnacked
    ensures var t, t' := Reach(c, acts).From(side).a.tcb, Reach(c, acts + more).From(side).a.tcb;
            FinAcked(t') && SameBlock(t, t') && Resends(t')
  {
    FinIsOut(c, acts, side);
    BlockInRange(c, acts, side);
    hide Reach;
    NothingMoreSent(c, acts, more, side);
    BlockResent(Reach(c, acts + more).From(side).a.tcb);
    hide Resends;
  }

  /** The timer queues one segment, the outstanding block at its own number. */
  predicate Resends(t: Tcb) {
    var out := Retransmit(Mod32, t).outbox;
    |out| == |t.outbox| + 1 && out[..|t.outbox|] == t.outbox
    && out[|t.outbox|].seqNo == t.unackedSeq && out[|t.outbox|].payload == t.unackedData
  }

  lemma BlockResent(t: Tcb)
    requires t.haveUnacked && t.unackedData != [] && t.unackedSeq < M32
    ensures Resends(t)
  {
  }

  lemma BlockInRange(c: Config, acts: seq<Action>, side: Side)
    requires SmallSys(Reach(c, acts)) && Reach(c, acts).From(side).a.tcb.haveUnacked
    ensures var t := Reach(c, acts).From(side).a.tcb; t.unackedData != [] && t.unackedSeq < M32
  {
    var u := BehindBoth(c, acts);
    var x := u.From(side).a;
    assert SenderOk(x);
    hide Half, ReceiverOk, StateOk;
    assert x.tcb.unackedData != [];
  }
}
