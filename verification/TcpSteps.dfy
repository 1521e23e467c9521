/** Every building block of a call keeps the invariant, on the unbounded machine. */
module TcpSteps {
  import opened Bytes
  import opened SeqArith
  import opened Segment
  import opened TcpMachine
  import opened TcpNetwork
  import opened TcpInvariant

  function With(x: Node, t: Tcb): Node { x.(tcb := t) }

  /** x's half of the invariant survives a later x that sent more. */
  lemma SenderHalf(x: Node, x': Node, y: Node, sent: set<TcpSegment>, sent': set<TcpSegment>)
    requires Half(x, y, sent) && Grows(x, x') && sent <= sent'
    requires forall seg :: seg in sent' && seg !in sent ==> PktOk(seg, x')
    requires Bound(x'.tcb) ==> x'.tcb.remoteIp == Some(y.tcb.localIp) && x'.tcb.remotePort == y.tcb.localPort
    requires x'.tcb.sndUna > x'.tcb.iss ==> Latched(y.tcb) && x'.tcb.sndUna <= y.tcb.rcvNxt
    requires x'.tcb.sndUna <= x'.tcb.iss + 1 ==> FirstBlockOnly(x', sent')
    requires y.tcb.finReceived ==> FinInOrderOrFirst(x', y, sent')
    ensures Half(x', y, sent')
  {
    forall seg | seg in sent' ensures PktOk(seg, x') {
      if seg in sent { PktStays(seg, x, x'); }
    }
    if Latched(y.tcb) {
      assert StreamOk(x, y);
      assert x'.written[..|y.Received()|] == x.written[..|y.Received()|];
    }
  }

  /** y's half survives an x that received more. */
  lemma ReceiverHalf(y: Node, x: Node, x': Node, sent: set<TcpSegment>)
    requires Half(y, x, sent) && Grows(x, x')
    requires Latched(x'.tcb) ==> Bound(y.tcb) && x'.tcb.irs == y.tcb.iss && StreamOk(y, x')
    requires x'.tcb.finReceived ==> y.tcb.finSent && FinInOrderOrFirst(y, x', sent)
    ensures Half(y, x', sent)
  {
  }

  lemma Assemble(x: Node, x': Node, y: Node, xy: set<TcpSegment>, yx: set<TcpSegment>)
    requires Core(x, y, xy, yx) && Local(x') && Grows(x, x') && x.tcb.outbox <= x'.tcb.outbox
    requires forall seg :: seg in x'.tcb.outbox && seg !in x.tcb.outbox ==> PktOk(seg, x')
    requires Bound(x'.tcb) ==> x'.tcb.remoteIp == Some(y.tcb.localIp) && x'.tcb.remotePort == y.tcb.localPort
    requires x'.tcb.sndUna > x'.tcb.iss ==> Latched(y.tcb) && x'.tcb.sndUna <= y.tcb.rcvNxt
    requires x'.tcb.sndUna <= x'.tcb.iss + 1 ==> FirstBlockOnly(x', xy + Pending(x'))
    requires y.tcb.finReceived ==> FinInOrderOrFirst(x', y, xy + Pending(x'))
    requires Latched(x'.tcb) ==> Bound(y.tcb) && x'.tcb.irs == y.tcb.iss && StreamOk(y, x')
    requires x'.tcb.finReceived ==> y.tcb.finSent && FinInOrderOrFirst(y, x', yx)
    ensures Core(x', y, xy, yx)
  {
    SenderHalf(x, x', y, xy + Pending(x), xy + Pending(x'));
    ReceiverHalf(y, x, x', yx);
  }

  /** The same stream, block and outbox: the sender's side of the invariant reads alike. */
  lemma SameSending(x: Node, x': Node, y: Node, xy: set<TcpSegment>)
    requires x'.written == x.written && x'.tcb.sendBuf == x.tcb.sendBuf && x'.tcb.iss == x.tcb.iss
    requires x'.tcb.haveUnacked == x.tcb.haveUnacked && x'.tcb.unackedSeq == x.tcb.unackedSeq && x'.tcb.outbox == x.tcb.outbox
    ensures Pending(x') == Pending(x)
    ensures FirstBlockOnly(x', xy + Pending(x')) <==> FirstBlockOnly(x, xy + Pending(x))
    ensures FinInOrderOrFirst(x', y, xy + Pending(x')) <==> FinInOrderOrFirst(x, y, xy + Pending(x))
  {
    assert Pending(x') == Pending(x);
  }

  /** The same bytes and numbers received: the receiver's side reads alike. */
  lemma SameReceiving(y: Node, x: Node, x': Node, yx: set<TcpSegment>)
    requires x'.Received() == x.Received() && x'.tcb.rcvNxt == x.tcb.rcvNxt && x'.tcb.irs == x.tcb.irs
    requires x'.tcb.finReceived == x.tcb.finReceived
    ensures StreamOk(y, x') <==> StreamOk(y, x)
    ensures FinInOrderOrFirst(y, x', yx) <==> FinInOrderOrFirst(y, x, yx)
  {
  }

  /** One more segment, of the first block if it has data while only that block may be out. */
  lemma MoreSending(x: Node, x': Node, y: Node, xy: set<TcpSegment>, seg: TcpSegment)
    requires x'.written == x.written && x'.tcb.sendBuf == x.tcb.sendBuf && x'.tcb.iss == x.tcb.iss
    requires x'.tcb.haveUnacked == x.tcb.haveUnacked && x'.tcb.unackedSeq == x.tcb.unackedSeq
    requires x'.tcb.outbox == x.tcb.outbox + [seg]
    requires seg.payload != [] ==> x.tcb.haveUnacked && seg.seqNo == x.tcb.unackedSeq
    ensures xy + Pending(x') == xy + Pending(x) + {seg}
    ensures FirstBlockOnly(x, xy + Pending(x)) ==> FirstBlockOnly(x', xy + Pending(x'))
    ensures FinInOrderOrFirst(x, y, xy + Pending(x)) ==> FinInOrderOrFirst(x', y, xy + Pending(x'))
  {
    assert xy + Pending(x') == xy + Pending(x) + {seg};
  }

  /** A change that touches none of the numbers, the buffers or the outbox. */
  predicate SameBooks(x: Node, x': Node) {
    x' == x.(started := x'.started,
             tcb := x.tcb.(state := x'.tcb.state, sndWnd := x'.tcb.sndWnd, aborted := x'.tcb.aborted, abortedIn := x'.tcb.abortedIn))
  }

  lemma RelabelKeeps(x: Node, x': Node, y: Node, xy: set<TcpSegment>, yx: set<TcpSegment>)
    requires Core(x, y, xy, yx) && SameBooks(x, x') && StateOk(x')
    ensures Core(x', y, xy, yx)
  {
    RelabelLocal(x, x');
    SameSending(x, x', y, xy);
    SameReceiving(y, x, x', yx);
    hide Local, Grows, PktOk, Pending, FirstBlockOnly, FinInOrderOrFirst, StreamOk, StateOk;
    Assemble(x, x', y, xy, yx);
  }

  lemma RelabelLocal(x: Node, x': Node)
    requires Local(x) && SameBooks(x, x') && StateOk(x')
    ensures Local(x') && Grows(x, x') && x'.Received() == x.Received()
  {
    assert Emitted(x') == Emitted(x);
    RelabelSender(x, x');
    hide StateOk, SenderOk;
  }

  lemma RelabelSender(x: Node, x': Node)
    requires SenderOk(x) && SameBooks(x, x')
    ensures SenderOk(x') && 0 <= Emitted(x) <= |x.written|
  {
  }

  lemma PushLocal(x: Node, seg: TcpSegment)
    requires Local(x)
    ensures Local(With(x, Push(x.tcb, seg))) && Grows(x, With(x, Push(x.tcb, seg)))
  {
  }

  /** Queueing one more copy of something already promised. */
  lemma PushKeeps(x: Node, y: Node, xy: set<TcpSegment>, yx: set<TcpSegment>, seg: TcpSegment)
    requires Core(x, y, xy, yx) && PktOk(seg, x)
    requires seg.payload != [] ==> x.tcb.haveUnacked && seg.seqNo == x.tcb.unackedSeq
    ensures Core(With(x, Push(x.tcb, seg)), y, xy, yx)
  {
    var x' := With(x, Push(x.tcb, seg));
    PushLocal(x, seg);
    PktStays(seg, x, x');
    assert x'.Received() == x.Received();
    MoreSending(x, x', y, xy, seg);
    SameReceiving(y, x, x', yx);
    hide Local, PktOk, Grows, Pending, FirstBlockOnly, FinInOrderOrFirst, StreamOk;
    Assemble(x, x', y, xy, yx);
  }

  lemma PureAckKeeps(x: Node, y: Node, xy: set<TcpSegment>, yx: set<TcpSegment>)
    requires Core(x, y, xy, yx) && Synced(x.tcb)
    ensures Core(With(x, EmitPureAck(Unbounded, x.tcb)), y, xy, yx)
    ensures EmitPureAck(Unbounded, x.tcb).state == x.tcb.state
  {
    PushKeeps(x, y, xy, yx, Plain(Unbounded, x.tcb, x.tcb.sndNxt, ACK, [], []));
  }

  lemma SynAckKeeps(x: Node, y: Node, xy: set<TcpSegment>, yx: set<TcpSegment>)
    requires Core(x, y, xy, yx) && Synced(x.tcb)
    ensures Core(With(x, EmitSynAck(Unbounded, x.tcb)), y, xy, yx)
  {
    PushKeeps(x, y, xy, yx, Plain(Unbounded, x.tcb, x.tcb.iss, SYN_ACK, BuildMssOption(x.tcb.localMss), []));
  }

  lemma RetransmitKeeps(x: Node, y: Node, xy: set<TcpSegment>, yx: set<TcpSegment>)
    requires Core(x, y, xy, yx)
    ensures Core(With(x, Retransmit(Unbounded, x.tcb)), y, xy, yx)
  {
    var t := x.tcb;
    if t.haveUnacked && t.unackedData != [] {
      assert Half(x, y, xy + Pending(x));
      var seg := Plain(Unbounded, t, t.unackedSeq, ACK_PSH, [], t.unackedData);
      assert PktOk(seg, x);
      PushKeeps(x, y, xy, yx, seg);
    }
  }

  // --- Receiving ---------------------------------------------------------------

  /** The peer's next bytes, as its stream continues after what was received. */
  lemma NextBytes(x: Node, y: Node, xy: set<TcpSegment>, yx: set<TcpSegment>, seg: TcpSegment)
    requires Core(x, y, xy, yx) && Latched(x.tcb)
    requires seg in yx && seg.payload != [] && seg.seqNo == x.tcb.rcvNxt
    ensures !x.tcb.finReceived
    ensures var k := |x.Received()|;
            k + |seg.payload| <= Emitted(y) <= |y.written|
            && y.written[..k + |seg.payload|] == x.Received() + seg.payload
  {
    assert PktOk(seg, y) && StreamOk(y, x);
    SliceOfPkt(seg, y);
    hide Local, PktOk;
    var k := |x.Received()|;
    assert y.written[..k + |seg.payload|] == y.written[..k] + y.written[k..k + |seg.payload|];
  }

  lemma CoreWindowed(x: Node, y: Node, xy: set<TcpSegment>, yx: set<TcpSegment>)
    requires Core(x, y, xy, yx)
    ensures Local(x) && (Windowed(x.tcb) ==> Latched(x.tcb) && Synced(x.tcb) && x.tcb.state != SYN_RECEIVED)
  {
    hide Half;
  }

  lemma SliceOfPkt(seg: TcpSegment, x: Node)
    requires PktOk(seg, x)
    ensures seg.payload != [] ==> SliceOk(seg, x)
    ensures seg.flags.fin ==> x.tcb.finSent && seg.seqNo == DataEnd(x)
    ensures seg.flags.ack ==> Latched(x.tcb) && x.tcb.irs < seg.ackNo <= x.tcb.rcvNxt
  {
  }

  lemma PayloadKeeps(x: Node, y: Node, xy: set<TcpSegment>, yx: set<TcpSegment>, seg: TcpSegment)
    requires Core(x, y, xy, yx) && Windowed(x.tcb)
    requires seg in yx && seg.payload != [] && seg.seqNo == x.tcb.rcvNxt
    ensures Core(With(x, TakePayload(Unbounded, x.tcb, seg)), y, xy, yx)
    ensures TakePayload(Unbounded, x.tcb, seg).state == x.tcb.state
  {
    hide Core, EmitPureAck, TakePayload, Windowed, Synced;
    var x1 := PayloadTaken(x, y, xy, yx, seg);
    PureAckKeeps(x1, y, xy, yx);
  }

  lemma PayloadTaken(x: Node, y: Node, xy: set<TcpSegment>, yx: set<TcpSegment>, seg: TcpSegment) returns (x1: Node)
    requires Core(x, y, xy, yx) && Windowed(x.tcb)
    requires seg in yx && seg.payload != [] && seg.seqNo == x.tcb.rcvNxt
    ensures Core(x1, y, xy, yx) && Synced(x1.tcb) && x1 == With(x, x1.tcb) && x1.tcb.state == x.tcb.state
    ensures TakePayload(Unbounded, x.tcb, seg) == EmitPureAck(Unbounded, x1.tcb)
  {
    CoreWindowed(x, y, xy, yx);
    hide Core, Local, Grows, EmitPureAck, Windowed;
    x1 := With(x, x.tcb.(readBuf := x.tcb.readBuf + seg.payload, rcvNxt := x.tcb.rcvNxt + |seg.payload|));
    PayloadLocal(x, seg);
    PayloadCore(x, x1, y, xy, yx, seg);
    TakePayloadIs(x.tcb, seg);
  }

  lemma TakePayloadIs(t: Tcb, seg: TcpSegment)
    ensures TakePayload(Unbounded, t, seg)
         == EmitPureAck(Unbounded, t.(readBuf := t.readBuf + seg.payload, rcvNxt := t.rcvNxt + |seg.payload|))
  {
    hide EmitPureAck;
  }

  lemma PayloadCore(x: Node, x1: Node, y: Node, xy: set<TcpSegment>, yx: set<TcpSegment>, seg: TcpSegment)
    requires Core(x, y, xy, yx) && Latched(x.tcb)
    requires seg in yx && seg.payload != [] && seg.seqNo == x.tcb.rcvNxt
    requires x1 == With(x, x.tcb.(readBuf := x.tcb.readBuf + seg.payload, rcvNxt := x.tcb.rcvNxt + |seg.payload|))
    requires Local(x1) && Grows(x, x1)
    ensures Core(x1, y, xy, yx)
  {
    NextBytes(x, y, xy, yx, seg);
    assert x1.Received() == x.Received() + seg.payload;
    assert StreamOk(y, x) && StreamOk(y, x1);
    SameSending(x, x1, y, xy);
    hide Local, Grows, PktOk, Pending, FirstBlockOnly, StreamOk;
    Assemble(x, x1, y, xy, yx);
  }

  lemma PayloadLocal(x: Node, seg: TcpSegment)
    requires Local(x) && Latched(x.tcb) && x.tcb.state != SYN_RECEIVED
    ensures var x' := With(x, x.tcb.(readBuf := x.tcb.readBuf + seg.payload, rcvNxt := x.tcb.rcvNxt + |seg.payload|));
            Local(x') && Grows(x, x')
  {
  }

  /** The FIN is consumed: in order, or as the first thing to arrive in SYN_RECEIVED. */
  lemma FinKeeps(x: Node, y: Node, xy: set<TcpSegment>, yx: set<TcpSegment>, seg: TcpSegment)
    requires Core(x, y, xy, yx) && Windowed(x.tcb)
    requires seg in yx && seg.flags.fin
    requires seg.seqNo == x.tcb.rcvNxt || (x.tcb.rcvNxt == x.tcb.irs + 1 && !x.tcb.finReceived)
    ensures Core(With(x, HandlePeerFin(Unbounded, x.tcb)), y, xy, yx)
    ensures HandlePeerFin(Unbounded, x.tcb).finReceived
    ensures x.tcb.state == ESTABLISHED && !x.tcb.finReceived ==> HandlePeerFin(Unbounded, x.tcb).state == CLOSE_WAIT
  {
    if !x.tcb.finReceived {
      var x1 := FinLocal(x);
      FinCore(x, x1, y, xy, yx, seg);
      PureAckKeeps(x1, y, xy, yx);
    }
  }

  lemma FinLocal(x: Node) returns (x1: Node)
    requires Local(x) && Latched(x.tcb) && !x.tcb.finReceived
    requires Windowed(x.tcb)
    ensures x1 == With(x, x.tcb.(finReceived := true, rcvNxt := x.tcb.rcvNxt + 1, state := x1.tcb.state))
    ensures HandlePeerFin(Unbounded, x.tcb) == EmitPureAck(Unbounded, x1.tcb)
    ensures Local(x1) && Grows(x, x1)
  {
    x1 := With(x, x.tcb.(finReceived := true, rcvNxt := x.tcb.rcvNxt + 1, state := HandlePeerFin(Unbounded, x.tcb).state));
  }

  lemma FinCore(x: Node, x1: Node, y: Node, xy: set<TcpSegment>, yx: set<TcpSegment>, seg: TcpSegment)
    requires Core(x, y, xy, yx) && Latched(x.tcb) && !x.tcb.finReceived
    requires seg in yx && seg.flags.fin
    requires seg.seqNo == x.tcb.rcvNxt || x.tcb.rcvNxt == x.tcb.irs + 1
    requires x1 == With(x, x.tcb.(finReceived := true, rcvNxt := x.tcb.rcvNxt + 1, state := x1.tcb.state))
    requires Local(x1) && Grows(x, x1)
    ensures Core(x1, y, xy, yx)
  {
    assert PktOk(seg, y) && StreamOk(y, x);
    SliceOfPkt(seg, y);
    hide Local, Grows, PktOk;
    assert x1.Received() == x.Received();
    assert StreamOk(y, x1);
    assert Pending(x1) == Pending(x);
    if seg.seqNo != x.tcb.rcvNxt {
      assert x.Received() == [] && y.tcb.sndUna <= y.tcb.iss + 1;
      assert FirstBlockOnly(y, yx);
    }
    Assemble(x, x1, y, xy, yx);
  }

  lemma TakeAckKeeps(x: Node, y: Node, xy: set<TcpSegment>, yx: set<TcpSegment>, seg: TcpSegment)
    requires Core(x, y, xy, yx) && seg in yx
    requires Windowed(x.tcb)
    ensures Core(With(x, TakeAck(Unbounded, x.tcb, seg)), y, xy, yx)
    ensures TakeAck(Unbounded, x.tcb, seg).state == x.tcb.state
  {
    var x1 := With(x, TakeAck(Unbounded, x.tcb, seg));
    assert PktOk(seg, y);
    SliceOfPkt(seg, y);
    TakeAckLocal(x, seg);
    assert x1.Received() == x.Received();
    SameReceiving(y, x, x1, yx);
    hide Local, PktOk, TakeAck, StreamOk, Grows;
    if x1 != x {
      assert Pending(x1) == Pending(x);
      Assemble(x, x1, y, xy, yx);
    }
  }

  lemma TakeAckLocal(x: Node, seg: TcpSegment)
    requires Local(x)
    requires Windowed(x.tcb)
    ensures var x' := With(x, TakeAck(Unbounded, x.tcb, seg));
            && Local(x') && Grows(x, x') && x.tcb.sndUna <= x'.tcb.sndUna
            && (x' == x || (seg.flags.ack && x'.tcb.sndUna == seg.ackNo))
            && x'.tcb == x.tcb.(sndUna := x'.tcb.sndUna, sndWnd := x'.tcb.sndWnd,
                                unackedData := x'.tcb.unackedData, haveUnacked := x'.tcb.haveUnacked)
            && (x'.tcb.haveUnacked ==> x.tcb.haveUnacked)
  {
  }

  // --- Opening -------------------------------------------------------------------

  /** The ACK of our SYN: the connection is established. */
  lemma EstablishKeeps(x: Node, y: Node, xy: set<TcpSegment>, yx: set<TcpSegment>, seg: TcpSegment)
    requires Core(x, y, xy, yx) && x.tcb.state == SYN_RECEIVED
    requires seg in yx && seg.flags.ack && seg.ackNo == x.tcb.iss + 1
    ensures Core(With(x, x.tcb.(sndUna := seg.ackNo, sndWnd := seg.window, state := ESTABLISHED)), y, xy, yx)
  {
    var x1 := With(x, x.tcb.(sndUna := seg.ackNo, sndWnd := seg.window, state := ESTABLISHED));
    assert PktOk(seg, y);
    SliceOfPkt(seg, y);
    EstablishLocal(x, seg);
    assert x1.Received() == x.Received();
    SameSending(x, x1, y, xy);
    SameReceiving(y, x, x1, yx);
    hide Local, Grows, PktOk, Pending, FirstBlockOnly, FinInOrderOrFirst, StreamOk;
    Assemble(x, x1, y, xy, yx);
  }

  lemma EstablishLocal(x: Node, seg: TcpSegment)
    requires Local(x) && x.tcb.state == SYN_RECEIVED && seg.ackNo == x.tcb.iss + 1
    ensures var x1 := With(x, x.tcb.(sndUna := seg.ackNo, sndWnd := seg.window, state := ESTABLISHED));
            Local(x1) && Grows(x, x1) && !x.tcb.haveUnacked && Latched(x.tcb) && Bound(x.tcb)
  {
  }

  /** The peer's SYN: its ISS is latched. */
  lemma LatchKeeps(x: Node, y: Node, xy: set<TcpSegment>, yx: set<TcpSegment>, seg: TcpSegment)
    requires Core(x, y, xy, yx) && x.tcb.state == SYN_SENT && seg in yx && seg.flags.syn
    ensures Core(With(x, Latch(Unbounded, x.tcb, seg).(state := SYN_RECEIVED)), y, xy, yx)
  {
    var x1 := With(x, Latch(Unbounded, x.tcb, seg).(state := SYN_RECEIVED));
    assert PktOk(seg, y) && SynOk(seg, y);
    MssOptionParses(y.tcb.localMss);
    assert x1.tcb == x.tcb.(irs := seg.seqNo, rcvNxt := seg.seqNo + 1, peerMss := x1.tcb.peerMss, state := SYN_RECEIVED);
    assert x1.Received() == x.Received() == [];
    assert Local(x1) && Grows(x, x1);
    assert Pending(x1) == Pending(x);
    Assemble(x, x1, y, xy, yx);
  }

  /** A listener takes the peer's SYN and answers with its own. */
  lemma ListenKeeps(x: Node, y: Node, xy: set<TcpSegment>, yx: set<TcpSegment>, seg: TcpSegment, iss: nat)
    requires Core(x, y, xy, yx) && x.tcb.state == LISTEN && x.started && x.tcb.outbox == [] && seg in yx
    requires !seg.flags.ack && seg.flags.syn
    ensures Core(With(x, OnListen(Unbounded, x.tcb, seg, y.tcb.localIp, iss).0), y, xy, yx)
    ensures OnListen(Unbounded, x.tcb, seg, y.tcb.localIp, iss).0.state == SYN_RECEIVED
  {
    assert PktOk(seg, y) && SynOk(seg, y);
    MssOptionParses(y.tcb.localMss);
    var t1 := Bind(Latch(Unbounded, x.tcb, seg), y.tcb.localIp, seg.srcPort, iss);
    var x1 := With(x, Emit(Unbounded, t1, SYN_ACK, []).(state := SYN_RECEIVED));
    assert forall s :: s in xy + Pending(x) ==> PktOk(s, x);
    assert xy == {};
    ListenLocal(x, seg, y.tcb.localIp, iss);
    assert x1.Received() == x.Received() == [];
    Assemble(x, x1, y, xy, yx);
  }

  lemma ListenLocal(x: Node, seg: TcpSegment, srcIp: Ip, iss: nat)
    requires Local(x) && x.tcb.state == LISTEN && x.started && x.tcb.outbox == []
    requires GetOption(OptionsFrom(seg.options, 0), OPT_MSS).Some? && |GetOption(OptionsFrom(seg.options, 0), OPT_MSS).value| == 2
    requires !seg.flags.ack && seg.flags.syn
    ensures var x' := With(x, OnListen(Unbounded, x.tcb, seg, srcIp, iss).0);
            && Local(x') && Grows(x, x') && (forall s :: s in x'.tcb.outbox ==> PktOk(s, x') && s.payload == [])
            && !x'.tcb.haveUnacked
  {
  }

  lemma OpenKeeps(x: Node, y: Node, xy: set<TcpSegment>, yx: set<TcpSegment>, iss: nat)
    requires Core(x, y, xy, yx) && x.tcb.state == CLOSED && !x.started && x.tcb.outbox == []
    ensures Core(With(x, OpenActive(Unbounded, x.tcb, y.tcb.localIp, y.tcb.localPort, iss).value).(started := true), y, xy, yx)
  {
    var x1 := With(x, OpenActive(Unbounded, x.tcb, y.tcb.localIp, y.tcb.localPort, iss).value).(started := true);
    assert forall s :: s in xy + Pending(x) ==> PktOk(s, x);
    assert xy == {};
    OpenLocal(x, y.tcb.localIp, y.tcb.localPort, iss);
    assert x1.Received() == x.Received();
    Assemble(x, x1, y, xy, yx);
  }

  lemma OpenLocal(x: Node, ip: Ip, port: nat, iss: nat)
    requires Local(x) && x.tcb.state == CLOSED && !x.started && x.tcb.outbox == []
    ensures var x' := With(x, OpenActive(Unbounded, x.tcb, ip, port, iss).value).(started := true);
            && Local(x') && Grows(x, x') && (forall s :: s in x'.tcb.outbox ==> PktOk(s, x') && s.payload == [])
            && !x'.tcb.haveUnacked
  {
  }

  // --- Sending ---------------------------------------------------------------------

  /** x1 is x after emitting seg and nothing else. */
  predicate Emits(x: Node, x1: Node, seg: TcpSegment) {
    var t, t1 := x.tcb, x1.tcb;
    && x1 == x.(tcb := t.(outbox := t.outbox + [seg], sndNxt := t1.sndNxt, finSent := t1.finSent, state := t1.state,
                          sendBuf := t1.sendBuf, unackedData := t1.unackedData, unackedSeq := t1.unackedSeq,
                          haveUnacked := t1.haveUnacked))
    && (if seg.payload == [] then t1.haveUnacked == t.haveUnacked && t1.unackedSeq == t.unackedSeq
        else t1.unackedSeq == seg.seqNo <= t.sndUna)
  }

  lemma EmitKeeps(x: Node, x1: Node, y: Node, xy: set<TcpSegment>, yx: set<TcpSegment>, seg: TcpSegment)
    requires Core(x, y, xy, yx) && Latched(x.tcb) && !x.tcb.finSent && Emits(x, x1, seg)
    requires Local(x1) && Grows(x, x1) && PktOk(seg, x1)
    ensures Core(x1, y, xy, yx)
  {
    assert xy + Pending(x1) == xy + Pending(x) + {seg};
    assert x1.Received() == x.Received();
    SameReceiving(y, x, x1, yx);
    hide StreamOk;
    Assemble(x, x1, y, xy, yx);
  }

  /** The next block leaves the send buffer. */
  lemma FlushSendKeeps(x: Node, y: Node, xy: set<TcpSegment>, yx: set<TcpSegment>)
    requires Core(x, y, xy, yx) && x.tcb.state in {ESTABLISHED, CLOSE_WAIT}
    ensures Core(With(x, FlushSend(Unbounded, x.tcb)), y, xy, yx)
    ensures var t := FlushSend(Unbounded, x.tcb); t.state == x.tcb.state && (t.haveUnacked || t.sendBuf == [])
  {
    if x.tcb.sendBuf != [] && !x.tcb.haveUnacked {
      var x1, seg := FlushSendLocal(x);
      EmitKeeps(x, x1, y, xy, yx, seg);
    }
  }

  lemma FlushSendLocal(x: Node) returns (x1: Node, seg: TcpSegment)
    requires Local(x) && x.tcb.state in {ESTABLISHED, CLOSE_WAIT}
    requires x.tcb.sendBuf != [] && !x.tcb.haveUnacked
    ensures x1 == With(x, FlushSend(Unbounded, x.tcb)) && x1.tcb.state == x.tcb.state && x1.tcb.haveUnacked
    ensures Local(x1) && Grows(x, x1) && Emits(x, x1, seg) && PktOk(seg, x1)
  {
    var t := x.tcb;
    var n := if |t.sendBuf| <= t.peerMss then |t.sendBuf| else t.peerMss;
    seg := Plain(Unbounded, t, t.sndNxt, ACK_PSH, [], t.sendBuf[..n]);
    x1 := With(x, t.(outbox := t.outbox + [seg], sndNxt := t.sndNxt + n, sendBuf := t.sendBuf[n..],
                     unackedData := t.sendBuf[..n], unackedSeq := t.sndNxt, haveUnacked := true));
    assert x1.tcb == FlushSend(Unbounded, t);
    BlockLocal(x, x1, n, seg);
  }

  lemma BlockLocal(x: Node, x1: Node, n: nat, seg: TcpSegment)
    requires Local(x) && x.tcb.state in {ESTABLISHED, CLOSE_WAIT} && !x.tcb.haveUnacked && 0 < n <= |x.tcb.sendBuf|
    requires seg == Plain(Unbounded, x.tcb, x.tcb.sndNxt, ACK_PSH, [], x.tcb.sendBuf[..n])
    requires x1 == With(x, x.tcb.(outbox := x.tcb.outbox + [seg], sndNxt := x.tcb.sndNxt + n, sendBuf := x.tcb.sendBuf[n..],
                     unackedData := x.tcb.sendBuf[..n], unackedSeq := x.tcb.sndNxt, haveUnacked := true))
    ensures Local(x1) && Grows(x, x1) && Emits(x, x1, seg) && PktOk(seg, x1)
  {
    var em := Emitted(x);
    assert x.written[em..][..n] == x.written[em..em + n];
    assert x.written[em..][n..] == x.written[em + n..];
    assert Emitted(x1) == em + n;
    assert x.tcb.sndUna == x.tcb.sndNxt == DataEnd(x);
  }

  lemma CloseKeeps(x: Node, y: Node, xy: set<TcpSegment>, yx: set<TcpSegment>)
    requires Core(x, y, xy, yx) && x.tcb.state in {SYN_RECEIVED, ESTABLISHED, CLOSE_WAIT}
    ensures Core(With(x, Close(Unbounded, x.tcb)), y, xy, yx)
    ensures !FinAcked(Close(Unbounded, x.tcb))
  {
    var x1, seg := CloseLocal(x);
    EmitKeeps(x, x1, y, xy, yx, seg);
  }

  lemma CloseLocal(x: Node) returns (x1: Node, seg: TcpSegment)
    requires Local(x) && x.tcb.state in {SYN_RECEIVED, ESTABLISHED, CLOSE_WAIT}
    ensures x1 == With(x, Close(Unbounded, x.tcb)) && !FinAcked(x1.tcb)
    ensures Local(x1) && Grows(x, x1) && Emits(x, x1, seg) && PktOk(seg, x1)
  {
    x1 := With(x, Close(Unbounded, x.tcb));
    seg := Plain(Unbounded, x.tcb, x.tcb.sndNxt, FIN_ACK, [], []);
  }
}
