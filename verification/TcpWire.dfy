/** The network of segments stands for a network of frames: nothing a connection
    sends is changed, rejected or lost by packing and parsing. */
module TcpWire {
  import opened Bytes
  import opened SeqArith
  import opened Segment
  import opened TcpCodec
  import opened TcpMachine
  import opened TcpNetwork
  import opened TcpInvariant
  import opened TcpRuns
  import opened TcpRefine
  import opened TcpSimulation
  import opened TcpTheorems
  import opened Connection

  /** The largest payload an option-less TCP segment can carry in an IPv4 packet. */
  const MAX_MSS := 65495

  /** What a side with MSS a sends a side with MSS b: every field fits its place, a SYN
      carries its MSS and no data, and data never exceeds what the peer advertised. */
  predicate Plainly(seg: TcpSegment, a: nat, b: nat) {
    && FieldsFit(seg) && |seg.payload| <= AdoptedMss(b)
    && (if seg.flags.syn then seg.payload == [] && seg.options == BuildMssOption(a) else seg.options == [])
  }

  ghost predicate Sound(t: Tcb, a: nat, b: nat) {
    && t.localPort < 0x1_0000 && t.remotePort < 0x1_0000 && t.localMss == a
    && t.sndNxt < M32 && t.rcvNxt < M32 && t.iss < M32 && t.unackedSeq < M32 && t.rcvWnd == 65535
    && (Synced(t) ==> t.peerMss <= AdoptedMss(b)) && |t.unackedData| <= AdoptedMss(b)
    && forall s :: s in t.outbox ==> Plainly(s, a, b)
  }

  lemma PlainSound(t: Tcb, seqNo: nat, flags: Flags, payload: bytes, a: nat, b: nat)
    requires Sound(t, a, b) && |payload| <= AdoptedMss(b) && (flags.syn ==> payload == [])
    ensures var options := if flags.syn then BuildMssOption(t.localMss) else [];
            Plainly(Plain(Mod32, t, seqNo, flags, options, payload), a, b)
  {
  }

  lemma PushSound(t: Tcb, seg: TcpSegment, a: nat, b: nat)
    requires Sound(t, a, b) && Plainly(seg, a, b)
    ensures Sound(Push(t, seg), a, b)
  {
    hide Plainly;
  }

  lemma EmitSound(t: Tcb, flags: Flags, payload: bytes, a: nat, b: nat)
    requires Sound(t, a, b) && |payload| <= AdoptedMss(b) && (flags.syn ==> payload == [])
    ensures Sound(Emit(Mod32, t, flags, payload), a, b) && Emit(Mod32, t, flags, payload).peerMss == t.peerMss
  {
    PlainSound(t, t.sndNxt, flags, payload, a, b);
    var options := if flags.syn then BuildMssOption(t.localMss) else [];
    PushSound(t, Plain(Mod32, t, t.sndNxt, flags, options, payload), a, b);
    hide Plainly, Plain;
  }

  lemma PureAckSound(t: Tcb, a: nat, b: nat)
    requires Sound(t, a, b)
    ensures Sound(EmitPureAck(Mod32, t), a, b) && EmitPureAck(Mod32, t).peerMss == t.peerMss
  {
    PlainSound(t, t.sndNxt, ACK, [], a, b);
    PushSound(t, Plain(Mod32, t, t.sndNxt, ACK, [], []), a, b);
    hide Plainly, Plain, Push;
  }

  lemma SynAckSound(t: Tcb, a: nat, b: nat)
    requires Sound(t, a, b)
    ensures Sound(EmitSynAck(Mod32, t), a, b) && EmitSynAck(Mod32, t).peerMss == t.peerMss
  {
    PlainSound(t, t.iss, SYN_ACK, [], a, b);
    PushSound(t, Plain(Mod32, t, t.iss, SYN_ACK, BuildMssOption(t.localMss), []), a, b);
    hide Plainly, Plain, Push;
  }

  lemma RetransmitSound(t: Tcb, a: nat, b: nat)
    requires Sound(t, a, b)
    ensures Sound(Retransmit(Mod32, t), a, b)
  {
    PlainSound(t, t.unackedSeq, ACK_PSH, t.unackedData, a, b);
    PushSound(t, Plain(Mod32, t, t.unackedSeq, ACK_PSH, [], t.unackedData), a, b);
    hide Plainly, Plain, Push;
  }

  lemma FlushSendSound(t: Tcb, a: nat, b: nat)
    requires Sound(t, a, b) && Synced(t)
    ensures Sound(FlushSend(Mod32, t), a, b)
  {
    if t.sendBuf != [] && !t.haveUnacked {
      var n := if |t.sendBuf| <= t.peerMss then |t.sendBuf| else t.peerMss;
      EmitSound(t.(sendBuf := t.sendBuf[n..]), ACK_PSH, t.sendBuf[..n], a, b);
    }
    hide Emit;
  }

  lemma LatchSound(t: Tcb, seg: TcpSegment, a: nat, b: nat)
    requires Sound(t, a, b) && Plainly(seg, b, a) && seg.flags.syn
    ensures Sound(Latch(Mod32, t, seg), a, b) && Latch(Mod32, t, seg).peerMss <= AdoptedMss(b)
  {
    MssOptionParses(b);
    assert Latch(Mod32, t, seg).peerMss == AdoptedMss(b);
    hide Plainly;
  }

  lemma ListenSound(t: Tcb, seg: TcpSegment, srcIp: Ip, iss: nat, a: nat, b: nat)
    requires Sound(t, a, b) && Plainly(seg, b, a) && !seg.flags.rst && iss < M32
    ensures Sound(OnListen(Mod32, t, seg, srcIp, iss).0, a, b)
  {
    if seg.flags.ack {
      PushSound(t, EmitRst(Mod32, t, seg.ackNo).outbox[|t.outbox|], a, b);
    } else if seg.flags.syn {
      LatchSound(t, seg, a, b);
      var t1 := Bind(Latch(Mod32, t, seg), srcIp, seg.srcPort, iss);
      hide Latch;
      EmitSound(t1, SYN_ACK, [], a, b);
    }
    hide Emit, Latch, Plainly;
  }

  lemma SynSentSound(t: Tcb, seg: TcpSegment, a: nat, b: nat)
    requires Sound(t, a, b) && Plainly(seg, b, a)
    ensures Sound(OnSynSent(Mod32, t, seg).0, a, b)
  {
    if seg.flags.syn {
      LatchSound(t, seg, a, b);
      var t1 := Latch(Mod32, t, seg);
      hide Latch, Plainly;
      SynAckSound(t1, a, b);
      var t2 := t1.(sndUna := seg.ackNo, sndWnd := seg.window);
      PureAckSound(t2, a, b);
      hide EmitPureAck, EmitSynAck;
      FlushSendSound(EmitPureAck(Mod32, t2).(state := ESTABLISHED), a, b);
      hide FlushSend;
    }
  }

  lemma TakePayloadSound(t: Tcb, seg: TcpSegment, a: nat, b: nat)
    requires Sound(t, a, b)
    ensures Sound(TakePayload(Mod32, t, seg), a, b) && TakePayload(Mod32, t, seg).state == t.state
  {
    PureAckSound(t.(readBuf := t.readBuf + seg.payload, rcvNxt := Norm(Mod32, t.rcvNxt + |seg.payload|)), a, b);
    hide EmitPureAck, Plainly;
  }

  lemma PeerFinSound(t: Tcb, a: nat, b: nat)
    requires Sound(t, a, b)
    ensures Sound(HandlePeerFin(Mod32, t), a, b) && (Synced(t) ==> Synced(HandlePeerFin(Mod32, t)))
  {
    PureAckSound(t.(finReceived := true, rcvNxt := Norm(Mod32, t.rcvNxt + 1)), a, b);
    hide EmitPureAck, Plainly;
  }

  lemma SynReceivedSound(t: Tcb, seg: TcpSegment, a: nat, b: nat)
    requires Sound(t, a, b) && t.state == SYN_RECEIVED
    ensures Sound(OnSynReceived(Mod32, t, seg).0, a, b)
  {
    SynAckSound(t, a, b);
    FirstDataSound(t.(sndUna := seg.ackNo, sndWnd := seg.window, state := ESTABLISHED), seg, a, b);
    hide EmitSynAck, TakeFirstData, Plainly;
  }

  lemma FirstDataSound(t: Tcb, seg: TcpSegment, a: nat, b: nat)
    requires Sound(t, a, b) && Synced(t)
    ensures Sound(TakeFirstData(Mod32, t, seg), a, b)
  {
    TakePayloadSound(t, seg, a, b);
    var t1 := if seg.payload == [] then t else TakePayload(Mod32, t, seg);
    hide TakePayload;
    PeerFinSound(t1, a, b);
    hide HandlePeerFin;
    FlushSendSound(if seg.flags.fin then HandlePeerFin(Mod32, t1) else t1, a, b);
    hide FlushSend, Sound;
  }

  lemma TakeAckSound(t: Tcb, seg: TcpSegment, a: nat, b: nat)
    requires Sound(t, a, b)
    ensures Sound(TakeAck(Mod32, t, seg), a, b)
  {
    hide Plainly;
  }

  lemma TakeDataSound(t: Tcb, seg: TcpSegment, a: nat, b: nat)
    requires Sound(t, a, b)
    ensures Sound(TakeData(Mod32, t, seg), a, b)
  {
    TakePayloadSound(t, seg, a, b);
    PureAckSound(t, a, b);
    hide TakePayload, EmitPureAck, Sound;
  }

  lemma CloseTransitionsSound(t: Tcb, a: nat, b: nat)
    requires Sound(t, a, b)
    ensures Sound(CloseTransitions(t), a, b)
  {
    hide Plainly;
  }

  lemma TakeFinSound(t: Tcb, seg: TcpSegment, a: nat, b: nat)
    requires Sound(t, a, b)
    ensures Sound(TakeFin(Mod32, t, seg), a, b)
  {
    PeerFinSound(t, a, b);
    var t1 := if seg.flags.fin && seg.seqNo + |seg.payload| == t.rcvNxt then HandlePeerFin(Mod32, t) else t;
    hide HandlePeerFin;
    CloseTransitionsSound(t1, a, b);
    hide CloseTransitions;
    if CloseTransitions(t1).state == ESTABLISHED { FlushSendSound(CloseTransitions(t1), a, b); }
    hide FlushSend, Sound;
  }

  lemma EstablishedSound(t: Tcb, seg: TcpSegment, a: nat, b: nat)
    requires Sound(t, a, b)
    ensures Sound(OnEstablished(Mod32, t, seg).0, a, b)
  {
    PureAckSound(t, a, b);
    TakeAckSound(t, seg, a, b);
    TakeDataSound(TakeAck(Mod32, t, seg), seg, a, b);
    TakeFinSound(TakeData(Mod32, TakeAck(Mod32, t, seg), seg), seg, a, b);
    hide TakeAck, TakeData, TakeFin, EmitPureAck, Sound;
  }

  lemma SegmentSound(t: Tcb, seg: TcpSegment, srcIp: Ip, iss: nat, a: nat, b: nat)
    requires Sound(t, a, b) && (Plainly(seg, b, a) || seg.flags.rst) && iss < M32
    ensures Sound(OnSegment(Mod32, t, seg, srcIp, iss).0, a, b)
  {
    hide OnListen, OnSynSent, OnSynReceived, OnEstablished, EmitPureAck, Plainly;
    if !seg.flags.rst {
      ListenSound(t, seg, srcIp, iss, a, b);
      SynSentSound(t, seg, a, b);
      if t.state == SYN_RECEIVED { SynReceivedSound(t, seg, a, b); }
      EstablishedSound(t, seg, a, b);
      PureAckSound(t, a, b);
      hide Sound;
    }
  }

  lemma CloseSound(t: Tcb, a: nat, b: nat)
    requires Sound(t, a, b)
    ensures Sound(Close(Mod32, t), a, b)
  {
    EmitSound(t, FIN_ACK, [], a, b);
    hide Emit, Plainly;
  }

  lemma WriteSound(t: Tcb, data: bytes, a: nat, b: nat)
    requires Sound(t, a, b) && Write(Mod32, t, data).Ok?
    ensures Sound(Write(Mod32, t, data).value, a, b)
  {
    if t.state == ESTABLISHED { FlushSendSound(t.(sendBuf := t.sendBuf + data), a, b); }
    hide FlushSend, Plainly;
  }

  lemma OpenSound(t: Tcb, ip: Ip, port: nat, iss: nat, a: nat, b: nat)
    requires Sound(t, a, b) && port < 0x1_0000 && iss < M32 && OpenActive(Mod32, t, ip, port, iss).Ok?
    ensures Sound(OpenActive(Mod32, t, ip, port, iss).value, a, b)
  {
    EmitSound(Bind(t, ip, port, iss), SYN, [], a, b);
    hide Emit, Plainly;
  }

  // --- Runs ----------------------------------------------------------------------------

  ghost predicate SoundFor(n: Node, peer: Node, out: Channel, inp: Channel, a: nat, b: nat) {
    && Sound(n.tcb, a, b) && Sound(peer.tcb, b, a)
    && (forall s :: s in out.sent ==> Plainly(s, a, b)) && (forall s :: s in inp.sent ==> Plainly(s, b, a))
    && (forall s :: s in inp.flight ==> s in inp.sent) && (forall s :: s in out.flight ==> s in out.sent)
  }

  lemma FlushSound(n: Node, t: Tcb, peer: Node, out: Channel, inp: Channel, inp': Channel, a: nat, b: nat)
    requires SoundFor(n, peer, out, inp, a, b) && Sound(t, a, b)
    requires inp'.sent == inp.sent && forall s :: s in inp'.flight ==> s in inp.flight
    ensures var (n', out') := Flush(n, t, out); SoundFor(n', peer, out', inp', a, b)
  {
    hide Plainly;
  }

  lemma ActSound(n: Node, peer: Node, out: Channel, inp: Channel, act: Action, a: nat, b: nat)
    requires SoundFor(n, peer, out, inp, a, b) && Ignored(n, peer, act)
    ensures var (n', out', inp') := Act(Mod32, n, peer, out, inp, act); SoundFor(n', peer, out', inp', a, b)
  {
    hide Plainly, Sound, OnSegment, Close, Write, Retransmit, OpenActive, Flush, Receive, Ignored;
    match act
    case DoOpenActive(_, iss) => OpenActSound(n, peer, out, inp, act, a, b);
    case DoWrite(_, data) =>
      if Write(Mod32, n.tcb, data).Ok? {
        WriteSound(n.tcb, data, a, b);
        FlushSound(n.(written := n.written + data), Write(Mod32, n.tcb, data).value, peer, out, inp, inp, a, b);
      }
    case DoClose(_) =>
      CloseSound(n.tcb, a, b);
      FlushSound(n, Close(Mod32, n.tcb), peer, out, inp, inp, a, b);
    case DoRetransmit(_) =>
      RetransmitSound(n.tcb, a, b);
      FlushSound(n, Retransmit(Mod32, n.tcb), peer, out, inp, inp, a, b);
    case Deliver(_, i, iss) =>
      if i < |inp.flight| && iss < M32 {
        ReceiveSound(n, peer, out, inp, inp.flight[i], iss, inp.(flight := Without(inp.flight, i)), a, b);
      }
    case Redeliver(_, seg, iss) =>
      if seg in inp.sent && iss < M32 { ReceiveSound(n, peer, out, inp, seg, iss, inp, a, b); }
    case Inject(_, _, _) => InjectSound(n, peer, out, inp, act, a, b);
    case DoOpenListen(_) => ListenActSound(n, peer, out, inp, act, a, b);
    case DoPopRead(_, _) => PopReadActSound(n, peer, out, inp, act, a, b);
    case Drop(_, _) =>
  }

  lemma OpenActSound(n: Node, peer: Node, out: Channel, inp: Channel, act: Action, a: nat, b: nat)
    requires SoundFor(n, peer, out, inp, a, b) && act.DoOpenActive?
    ensures var (n', out', inp') := Act(Mod32, n, peer, out, inp, act); SoundFor(n', peer, out', inp', a, b)
  {
    hide Plainly, OpenActive, Flush;
    var r := OpenActive(Mod32, n.tcb, peer.tcb.localIp, peer.tcb.localPort, act.iss);
    if r.Ok? && act.iss < M32 {
      OpenSound(n.tcb, peer.tcb.localIp, peer.tcb.localPort, act.iss, a, b);
      FlushSound(n.(started := true), r.value, peer, out, inp, inp, a, b);
    }
    hide Sound;
  }

  lemma ListenActSound(n: Node, peer: Node, out: Channel, inp: Channel, act: Action, a: nat, b: nat)
    requires SoundFor(n, peer, out, inp, a, b) && act.DoOpenListen?
    ensures var (n', out', inp') := Act(Mod32, n, peer, out, inp, act); SoundFor(n', peer, out', inp', a, b)
  {
    hide Plainly;
  }

  lemma PopReadActSound(n: Node, peer: Node, out: Channel, inp: Channel, act: Action, a: nat, b: nat)
    requires SoundFor(n, peer, out, inp, a, b) && act.DoPopRead?
    ensures var (n', out', inp') := Act(Mod32, n, peer, out, inp, act); SoundFor(n', peer, out', inp', a, b)
  {
    hide Plainly;
  }

  lemma ReceiveSound(n: Node, peer: Node, out: Channel, inp: Channel, seg: TcpSegment, iss: nat, inp': Channel, a: nat, b: nat)
    requires SoundFor(n, peer, out, inp, a, b) && seg in inp.sent && iss < M32
    requires inp'.sent == inp.sent && forall s :: s in inp'.flight ==> s in inp.flight
    ensures var (n', out') := Receive(Mod32, n, seg, peer.tcb.localIp, iss, out); SoundFor(n', peer, out', inp', a, b)
  {
    hide Plainly, Sound, OnSegment, Flush;
    SegmentSound(n.tcb, seg, peer.tcb.localIp, iss, a, b);
    FlushSound(n, OnSegment(Mod32, n.tcb, seg, peer.tcb.localIp, iss).0, peer, out, inp, inp', a, b);
  }

  /** A third party's segment other than a RST does not reach the connection. */
  predicate Ignored(n: Node, peer: Node, act: Action) {
    act.Inject? && Foreign(n, peer, act.seg, act.srcIp) && !act.seg.flags.rst ==>
      OnSegment(Mod32, n.tcb, act.seg, act.srcIp, 0).0 == n.tcb
  }

  lemma IgnoredBehind(x: Node, y: Node, xy: set<TcpSegment>, yx: set<TcpSegment>, act: Action)
    requires Core(x, y, xy, yx) && Settled(x.tcb)
    ensures Ignored(WrapNode(x), WrapNode(y), act)
  {
    assert WrapTcb(y.tcb).localIp == y.tcb.localIp && WrapTcb(y.tcb).localPort == y.tcb.localPort;
    WrapFields(x.tcb);
    if act.Inject? && Foreign(x, y, act.seg, act.srcIp) && !act.seg.flags.rst {
      WrapForeign(x, y, xy, yx, act.seg, act.srcIp);
      ForeignKeeps(x, y, xy, yx, Forged(x.tcb, act.seg), act.srcIp);
    }
    hide Core, WrapTcb, OnSegment;
  }

  lemma InjectSound(n: Node, peer: Node, out: Channel, inp: Channel, act: Action, a: nat, b: nat)
    requires SoundFor(n, peer, out, inp, a, b) && act.Inject? && Ignored(n, peer, act)
    ensures var (n', out', inp') := Act(Mod32, n, peer, out, inp, act); SoundFor(n', peer, out', inp', a, b)
  {
    if Foreign(n, peer, act.seg, act.srcIp) {
      if act.seg.flags.rst { SegmentSound(n.tcb, act.seg, act.srcIp, 0, a, b); }
      FlushSound(n, OnSegment(Mod32, n.tcb, act.seg, act.srcIp, 0).0, peer, out, inp, inp, a, b);
    }
    hide Plainly, OnSegment, Flush;
  }

  ghost predicate SoundSys(s: Sys, a: nat, b: nat) { SoundFor(s.a, s.b, s.ab, s.ba, a, b) }

  predicate Usable(c: Config) {
    c.ipA < 0x1_0000_0000 && c.ipB < 0x1_0000_0000 && c.portA < 0x1_0000 && c.portB < 0x1_0000
  }

  /** No larger MSS than fits an IPv4 packet is advertised by either side. */
  predicate FittingMss(c: Config) { c.mssA % 0x1_0000 <= MAX_MSS && c.mssB % 0x1_0000 <= MAX_MSS }

  lemma {:induction false} RunSound(c: Config, acts: seq<Action>)
    requires Usable(c) && SmallSys(Reach(c, acts))
    ensures SoundSys(Reach(c, acts), c.mssA, c.mssB)
  {
    if acts != [] {
      var init, last := acts[..|acts| - 1], acts[|acts| - 1];
      var s := Reach(c, init);
      StepWritten(Mod32, s, last);
      RunSound(c, init);
      var u := BehindBoth(c, init);
      if last.side == A {
        IgnoredBehind(u.a, u.b, u.ab.sent, u.ba.sent, last);
        ActSound(s.a, s.b, s.ab, s.ba, last, c.mssA, c.mssB);
      } else {
        IgnoredBehind(u.b, u.a, u.ba.sent, u.ab.sent, last);
        ActSound(s.b, s.a, s.ba, s.ab, last, c.mssB, c.mssA);
      }
      hide Act, Sound, Plainly, Ignored, WrapTcb, Core;
    }
  }

  /** In every run, no side is ever sent more data in one segment than the MSS it
      advertised (or the floor of 536), and every SYN carries its sender's MSS. */
  lemma MssRespected(c: Config, acts: seq<Action>)
    requires Usable(c) && SmallSys(Reach(c, acts))
    ensures var s := Reach(c, acts);
            && (forall seg :: seg in s.ab.sent ==> Plainly(seg, c.mssA, c.mssB))
            && (forall seg :: seg in s.ba.sent ==> Plainly(seg, c.mssB, c.mssA))
  {
    RunSound(c, acts);
  }

  /** Every segment either side ever sends, packed into a frame on any datalink, is
      decoded by the other side as exactly that segment. */
  lemma FramesCarrySegments(c: Config, acts: seq<Action>, seg: TcpSegment, dlt: nat, dstMac: bytes, srcMac: bytes)
    requires Usable(c) && FittingMss(c) && SmallSys(Reach(c, acts)) && Supported(dlt, dstMac, srcMac)
    ensures seg in Reach(c, acts).ab.sent ==>
              var r := BuildFrame(dlt, dstMac, srcMac, c.ipA, c.ipB, seg);
              r.Ok? && DecodeFrame(dlt, c.ipB, r.value) == Some(Arrival(seg, c.ipA, c.ipB))
    ensures seg in Reach(c, acts).ba.sent ==>
              var r := BuildFrame(dlt, dstMac, srcMac, c.ipB, c.ipA, seg);
              r.Ok? && DecodeFrame(dlt, c.ipA, r.value) == Some(Arrival(seg, c.ipB, c.ipA))
  {
    RunSound(c, acts);
    if seg in Reach(c, acts).ab.sent {
      PlainlyCarried(seg, c.mssA, c.mssB, dlt, dstMac, srcMac, c.ipA, c.ipB);
    }
    if seg in Reach(c, acts).ba.sent {
      PlainlyCarried(seg, c.mssB, c.mssA, dlt, dstMac, srcMac, c.ipB, c.ipA);
    }
    hide Reach, BuildFrame, DecodeFrame;
  }

  lemma PlainlyCarried(seg: TcpSegment, a: nat, b: nat, dlt: nat, dstMac: bytes, srcMac: bytes, src: Ip, dst: Ip)
    requires Plainly(seg, a, b) && b % 0x1_0000 <= MAX_MSS && Supported(dlt, dstMac, srcMac) && src < 0x1_0000_0000 && dst < 0x1_0000_0000
    ensures var r := BuildFrame(dlt, dstMac, srcMac, src, dst, seg);
            r.Ok? && DecodeFrame(dlt, dst, r.value) == Some(Arrival(seg, src, dst))
  {
    assert PadOptions(seg.options) == seg.options && Fits(seg);
    hide *;
    BuildFrameIff(dlt, dstMac, srcMac, src, dst, seg);
    FrameRoundTrip(dlt, dstMac, srcMac, src, dst, seg);
    assert seg.(options := seg.options) == seg;
  }
}
