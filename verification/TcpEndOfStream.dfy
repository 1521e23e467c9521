/** A FIN ends the stream: what a side has received when it takes its peer's FIN is all it
    will ever receive, also when bytes are missing because the FIN overtook them. */
module TcpEndOfStream {
  import opened Bytes
  import opened SeqArith
  import opened Segment
  import opened TcpMachine
  import opened TcpNetwork
  import opened TcpInvariant
  import opened TcpSteps
  import opened TcpSafety
  import opened TcpRuns
  import opened TcpRefine
  import opened TcpSimulation
  import opened TcpTheorems
  import opened TcpDoneSending

  /** The peer's FIN stays taken, and nothing more is received. */
  predicate Ended(n: Node, n': Node) { n'.tcb.finReceived && n'.Received() == n.Received() }

  /** No segment the peer ever sent is next in order after its FIN. */
  lemma NothingNext(x: Node, y: Node, xy: set<TcpSegment>, yx: set<TcpSegment>, seg: TcpSegment)
    requires Core(x, y, xy, yx) && x.tcb.finReceived && seg in yx && seg.payload != []
    ensures seg.seqNo != x.tcb.rcvNxt
  {
    assert PktOk(seg, y) && Latched(x.tcb) && StreamOk(y, x);
    SliceOfPkt(seg, y);
    hide PktOk, Local;
  }

  // --- One segment, on unbounded numbers ------------------------------------------------------

  predicate TcbEnded(t: Tcb, t': Tcb) { t'.finReceived && t'.readBuf == t.readBuf }

  lemma FinAlreadyTaken(t: Tcb, seg: TcpSegment)
    requires t.finReceived
    ensures TakeFin(Unbounded, t, seg).readBuf == t.readBuf && TakeFin(Unbounded, t, seg).finReceived
  {
    var t1 := if seg.flags.fin && seg.seqNo + |seg.payload| == t.rcvNxt then HandlePeerFin(Unbounded, t) else t;
    assert t1 == t;
    TransitionsRead(t);
    FlushSendFrame(CloseTransitions(t));
    hide EmitPureAck, AfterPeerFin, CloseTransitions, FlushSend;
  }

  lemma TransitionsRead(t: Tcb)
    ensures var t' := CloseTransitions(t); t'.readBuf == t.readBuf && t'.finReceived == t.finReceived
  {
    hide FinAcked;
  }

  lemma AckTaken(t: Tcb, seg: TcpSegment)
    ensures var t' := TakeAck(Unbounded, t, seg);
            t'.readBuf == t.readBuf && t'.finReceived == t.finReceived && t'.rcvNxt == t.rcvNxt
  {
    hide AcksNew;
  }

  lemma DataRefused(t: Tcb, seg: TcpSegment)
    requires seg.payload != [] ==> seg.seqNo != t.rcvNxt
    ensures var t' := TakeData(Unbounded, t, seg); t'.readBuf == t.readBuf && t'.finReceived == t.finReceived
  {
    PureAckFrame(t);
    hide EmitPureAck, TakePayload;
  }

  lemma WindowedEnded(t: Tcb, seg: TcpSegment)
    requires t.finReceived && (seg.payload != [] ==> seg.seqNo != t.rcvNxt)
    ensures TcbEnded(t, OnEstablished(Unbounded, t, seg).0)
  {
    PureAckFrame(t);
    AckTaken(t, seg);
    DataRefused(TakeAck(Unbounded, t, seg), seg);
    FinAlreadyTaken(TakeData(Unbounded, TakeAck(Unbounded, t, seg), seg), seg);
    hide TakeAck, TakeData, TakeFin, EmitPureAck;
  }

  lemma SegmentEnded(x: Node, y: Node, xy: set<TcpSegment>, yx: set<TcpSegment>, seg: TcpSegment, iss: nat)
    requires Core(x, y, xy, yx) && x.tcb.finReceived && seg in yx
    ensures TcbEnded(x.tcb, OnSegment(Unbounded, x.tcb, seg, y.tcb.localIp, iss).0)
  {
    if seg.payload != [] { NothingNext(x, y, xy, yx, seg); }
    NotOpening(x, y, xy, yx);
    hide Core;
    DispatchEnded(x.tcb, seg, y.tcb.localIp, iss);
    hide OnSegment, TcbEnded;
  }

  lemma NotOpening(x: Node, y: Node, xy: set<TcpSegment>, yx: set<TcpSegment>)
    requires Core(x, y, xy, yx) && x.tcb.finReceived
    ensures x.tcb.state !in {LISTEN, SYN_SENT, SYN_RECEIVED} && x.started
  {
    hide Half, SenderOk;
  }

  lemma DispatchEnded(t: Tcb, seg: TcpSegment, srcIp: Ip, iss: nat)
    requires t.finReceived && t.state !in {LISTEN, SYN_SENT, SYN_RECEIVED}
    requires seg.payload != [] ==> seg.seqNo != t.rcvNxt
    ensures TcbEnded(t, OnSegment(Unbounded, t, seg, srcIp, iss).0)
  {
    WindowedEnded(t, seg);
    PureAckFrame(t);
    hide OnListen, OnSynSent, OnSynReceived, OnEstablished, EmitPureAck;
  }

  lemma ForeignEnded(x: Node, y: Node, seg: TcpSegment, srcIp: Ip)
    requires x.tcb.finReceived && Foreign(x, y, seg, srcIp)
    requires x.tcb.remoteIp == Some(y.tcb.localIp) && x.tcb.remotePort == y.tcb.localPort && x.tcb.state != LISTEN
    ensures TcbEnded(x.tcb, OnSegment(Unbounded, x.tcb, seg, srcIp, 0).0)
  {
    hide OnListen, OnSynSent, OnSynReceived, OnEstablished;
  }

  // --- One action -------------------------------------------------------------------------------

  lemma ReceiveEnded(n: Node, peer: Node, out: Channel, inp: Channel, seg: TcpSegment, iss: nat)
    requires InvFor(n, peer, out, inp) && n.tcb.finReceived && seg in inp.sent
    ensures Ended(n, Receive(Unbounded, n, seg, peer.tcb.localIp, iss, out).0)
  {
    SegmentEnded(n, peer, out.sent, inp.sent, seg, iss);
    hide Core, OnSegment;
  }

  lemma InjectEnded(n: Node, peer: Node, out: Channel, inp: Channel, seg: TcpSegment, srcIp: Ip)
    requires InvFor(n, peer, out, inp) && n.tcb.finReceived && Foreign(n, peer, seg, srcIp)
    ensures Ended(n, Receive(Unbounded, n, seg, srcIp, 0, out).0)
  {
    NotOpening(n, peer, out.sent, inp.sent);
    assert Half(n, peer, out.sent + Pending(n)) && Local(n);
    ForeignEnded(n, peer, seg, srcIp);
    hide OnSegment;
  }

  lemma CallEnded(n: Node, peer: Node, out: Channel, inp: Channel, act: Action)
    requires n.tcb.finReceived && (act.DoWrite? || act.DoClose? || act.DoPopRead? || act.DoRetransmit?)
    ensures Ended(n, Act(Unbounded, n, peer, out, inp, act).0)
  {
    hide Write, Close, PopRead, Retransmit, Receive;
    match act
    case DoWrite(_, data) => if Write(Unbounded, n.tcb, data).Ok? { WriteReads(n.tcb, data); }
    case DoClose(_) => CloseReads(n.tcb);
    case DoPopRead(_, k) => PopReadMoves(n, k);
    case DoRetransmit(_) => RetransmitReads(n.tcb);
  }

  lemma WriteReads(t: Tcb, data: bytes)
    requires Write(Unbounded, t, data).Ok?
    ensures var t' := Write(Unbounded, t, data).value; t'.finReceived == t.finReceived && t'.readBuf == t.readBuf
  {
    FlushSendFrame(t.(sendBuf := t.sendBuf + data));
    hide FlushSend;
  }

  lemma CloseReads(t: Tcb)
    ensures var t' := Close(Unbounded, t); t'.finReceived == t.finReceived && t'.readBuf == t.readBuf
  {
    EmitReads(t, FIN_ACK, []);
    hide Emit;
  }

  lemma EmitReads(t: Tcb, flags: Flags, payload: bytes)
    ensures var t' := Emit(Unbounded, t, flags, payload); t'.finReceived == t.finReceived && t'.readBuf == t.readBuf
  {
    hide Plain;
  }

  lemma RetransmitReads(t: Tcb)
    ensures var t' := Retransmit(Unbounded, t); t'.finReceived == t.finReceived && t'.readBuf == t.readBuf
  {
    hide Plain;
  }

  lemma ActEnded(n: Node, peer: Node, out: Channel, inp: Channel, act: Action)
    requires InvFor(n, peer, out, inp) && n.tcb.finReceived
    ensures Ended(n, Act(Unbounded, n, peer, out, inp, act).0)
  {
    InvParts(n, peer, out, inp);
    NotOpening(n, peer, out.sent, inp.sent);
    hide InvFor, Core, Receive, Flush, Foreign, Without, Settled, Wires;
    match act
    case Deliver(_, i, iss) =>
      if i < |inp.flight| { ReceiveEnded(n, peer, out, inp, inp.flight[i], iss); }
    case Redeliver(_, seg, iss) => if seg in inp.sent { ReceiveEnded(n, peer, out, inp, seg, iss); }
    case Inject(_, seg, srcIp) => if Foreign(n, peer, seg, srcIp) { InjectEnded(n, peer, out, inp, seg, srcIp); }
    case DoOpenActive(_, _) =>
    case DoOpenListen(_) =>
    case Drop(_, _) =>
    case _ => CallEnded(n, peer, out, inp, act);
  }

  lemma StepEnded(s: Sys, act: Action, side: Side)
    requires Inv(s) && s.From(side).a.tcb.finReceived
    ensures Ended(s.From(side).a, Step(Unbounded, s, act).From(side).a)
  {
    FlipInv(s);
    var r := s.From(side);
    hide Core;
    if act.side == side { ActEnded(r.a, r.b, r.ab, r.ba, act); }
    hide Act;
  }

  // --- Every continuation ----------------------------------------------------------------------

  lemma StepEnded32(c: Config, acts: seq<Action>, act: Action, side: Side)
    requires SmallSys(Reach(c, acts)) && Reach(c, acts).From(side).a.tcb.finReceived
    ensures Ended(Reach(c, acts).From(side).a, Step(Mod32, Reach(c, acts), act).From(side).a)
  {
    var u := BehindBoth(c, acts);
    WrapStep(u, act);
    hide Reach, Inv, Step, WrapTcb, WrapChannel;
    WrapBuffers(u.From(side).a);
    var act' := LiftSys(u, act);
    WrapBuffers(Step(Unbounded, u, act').From(side).a);
    StepEnded(u, act', side);
    hide LiftSys;
  }

  /** Once a side has taken its peer's FIN, what it has received is the same in every
      continuation of the run. */
  lemma {:induction false} FinEndsStream(c: Config, acts: seq<Action>, more: seq<Action>, side: Side)
    requires SmallSys(Reach(c, acts + more)) && Reach(c, acts).From(side).a.tcb.finReceived
    ensures Ended(Reach(c, acts).From(side).a, Reach(c, acts + more).From(side).a)
  {
    if more == [] {
      assert acts + more == acts;
    } else {
      var init, last := more[..|more| - 1], more[|more| - 1];
      ReachMore(c, acts, more);
      StepWritten(Mod32, Reach(c, acts + init), last);
      hide Reach, Step;
      FinEndsStream(c, acts, init, side);
      StepEnded32(c, acts + init, last, side);
    }
  }

  // --- What a FIN decides ----------------------------------------------------------------------

  /** The same delivery, seen from the side it arrives at. */
  lemma RedeliverTurned(s: Sys, side: Side, seg: TcpSegment, iss: nat)
    ensures Step(Mod32, s, Redeliver(side, seg, iss)).From(side) == Step(Mod32, s.From(side), Redeliver(A, seg, iss))
  {
    hide Receive;
  }

  lemma PeerIsDone(c: Config, acts: seq<Action>, side: Side)
    requires SmallSys(Reach(c, acts)) && Reach(c, acts).From(side).a.tcb.finReceived
    ensures var peer := Reach(c, acts).From(side).b; DoneSending(peer.tcb) && peer.started
  {
    var u := BehindBoth(c, acts);
    assert Half(u.From(side).b, u.From(side).a, u.From(side).ba.sent);
    hide Inv;
    FinIsOut(c, acts, if side == A then B else A);
    hide Reach;
  }

  /** What a FIN decides it decides for good: in every continuation of a run in which a side
      takes its peer's FIN, the side has everything its peer emitted if and only if that FIN's
      number was the expected one. */
  lemma FinDecidesForGood(c: Config, acts: seq<Action>, more: seq<Action>, side: Side, seg: TcpSegment, iss: nat)
    requires SmallSys(Reach(c, acts + [Redeliver(side, seg, iss)] + more))
    requires seg in Reach(c, acts).From(side).ba.sent && iss < M32
    requires TakesFin(Reach(c, acts).From(side).a, Reach(c, acts + [Redeliver(side, seg, iss)]).From(side).a)
    ensures var s' := Reach(c, acts + [Redeliver(side, seg, iss)] + more).From(side);
            |s'.a.Received()| == Emitted(s'.b) <==> seg.seqNo == Reach(c, acts).From(side).a.tcb.rcvNxt
  {
    var taken := acts + [Redeliver(side, seg, iss)];
    SmallBefore(c, taken, more);
    SmallBefore(c, acts, [Redeliver(side, seg, iss)]);
    ReachMore(c, acts, [Redeliver(side, seg, iss)]);
    assert acts + [] == acts;
    hide Reach;
    RedeliverTurned(Reach(c, acts), side, seg, iss);
    FinCompleteIff(c, acts, side, seg, iss);
    FinEndsStream(c, taken, more, side);
    PeerIsDone(c, taken, side);
    NothingMoreSent(c, taken, more, if side == A then B else A);
    hide Step;
  }
}
