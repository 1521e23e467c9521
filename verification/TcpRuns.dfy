/** The invariant over whole runs of the unbounded machine. */
module TcpRuns {
  import opened Bytes
  import opened SeqArith
  import opened Segment
  import opened TcpMachine
  import opened TcpNetwork
  import opened TcpInvariant
  import opened TcpSteps
  import opened TcpSafety

  lemma FlipInv(s: Sys)
    requires Inv(s)
    ensures Inv(s.Flip())
  {
    assert s.ab.sent + Pending(s.a) == s.ab.sent;
    assert s.ba.sent + Pending(s.b) == s.ba.sent;
  }

  /** Between calls: what the invariant says of one endpoint and its two channels. */
  ghost predicate InvFor(n: Node, peer: Node, out: Channel, inp: Channel) {
    Inv(Sys(n, peer, out, inp))
  }

  lemma StartInv(c: Config)
    ensures Inv(Start(c))
  {
  }

  /** Without a peer there is nothing to send. */
  lemma OutboxBound(x: Node, y: Node, xy: set<TcpSegment>, yx: set<TcpSegment>)
    requires Core(x, y, xy, yx)
    ensures x.tcb.remoteIp == None ==> x.tcb.outbox == []
  {
    if x.tcb.outbox != [] {
      assert x.tcb.outbox[0] in xy + Pending(x);
    }
  }

  /** The outbox goes out on the wire. */
  lemma FlushKeeps(n: Node, x: Node, y: Node, out: Channel, inp: Channel)
    requires Core(x, y, out.sent, inp.sent) && Settled(x.tcb) && Settled(y.tcb) && y.tcb.outbox == []
    requires forall seg :: seg in out.flight ==> seg in out.sent
    requires forall seg :: seg in inp.flight ==> seg in inp.sent
    requires n == x.(tcb := n.tcb)
    ensures var (n', out') := Flush(n, x.tcb, out); InvFor(n', y, out', inp)
  {
    var (x', out') := Flush(n, x.tcb, out);
    assert x' == With(x, x.tcb.(outbox := []));
    OutboxBound(x, y, out.sent, inp.sent);
    assert out'.sent + Pending(x') == out.sent + Pending(x);
    FlushLocal(x);
    SenderHalf(x, x', y, out.sent + Pending(x), out'.sent + Pending(x'));
    assert x'.Received() == x.Received();
    ReceiverHalf(y, x, x', inp.sent);
  }

  lemma FlushLocal(x: Node)
    requires Local(x)
    ensures var x' := With(x, x.tcb.(outbox := [])); Local(x') && Grows(x, x')
  {
  }

  lemma WriteKeeps(x: Node, y: Node, xy: set<TcpSegment>, yx: set<TcpSegment>, data: bytes)
    requires Core(x, y, xy, yx) && Settled(x.tcb) && Write(Unbounded, x.tcb, data).Ok?
    ensures var t := Write(Unbounded, x.tcb, data).value;
            Core(x.(tcb := t, written := x.written + data), y, xy, yx) && Settled(t)
  {
    var x1 := x.(tcb := x.tcb.(sendBuf := x.tcb.sendBuf + data), written := x.written + data);
    WriteLocal(x, data);
    assert Pending(x1) == Pending(x);
    assert x1.Received() == x.Received();
    Assemble(x, x1, y, xy, yx);
    hide Core;
    if x.tcb.state == ESTABLISHED {
      FlushSendKeeps(x1, y, xy, yx);
    }
  }

  lemma WriteLocal(x: Node, data: bytes)
    requires Local(x)
    ensures var x' := x.(tcb := x.tcb.(sendBuf := x.tcb.sendBuf + data), written := x.written + data);
            Local(x') && Grows(x, x') && Emitted(x') == Emitted(x)
  {
    var x' := x.(tcb := x.tcb.(sendBuf := x.tcb.sendBuf + data), written := x.written + data);
    assert Emitted(x') == Emitted(x);
    assert x'.written[Emitted(x)..] == x.written[Emitted(x)..] + data;
    if x.tcb.haveUnacked {
      assert x'.written[x.tcb.unackedSeq - x.tcb.iss - 1..Emitted(x)] == x.written[x.tcb.unackedSeq - x.tcb.iss - 1..Emitted(x)];
    }
  }

  lemma PopReadKeeps(x: Node, y: Node, xy: set<TcpSegment>, yx: set<TcpSegment>, k: Option<nat>)
    requires Core(x, y, xy, yx)
    ensures var (out, t) := PopRead(x.tcb, k); Core(x.(tcb := t, popped := x.popped + out), y, xy, yx)
  {
    var (out, t) := PopRead(x.tcb, k);
    PopReadMoves(x, k);
    hide PopRead;
    MoveKeeps(x, x.(tcb := t, popped := x.popped + out), y, xy, yx);
  }

  lemma PopReadMoves(x: Node, k: Option<nat>)
    ensures var (out, t) := PopRead(x.tcb, k);
            t == x.tcb.(readBuf := t.readBuf) && out + t.readBuf == x.tcb.readBuf
  {
  }

  /** Bytes move from the read buffer to the application; none appear or vanish. */
  lemma MoveKeeps(x: Node, x1: Node, y: Node, xy: set<TcpSegment>, yx: set<TcpSegment>)
    requires Core(x, y, xy, yx)
    requires x1 == x.(tcb := x.tcb.(readBuf := x1.tcb.readBuf), popped := x1.popped)
    requires x.popped <= x1.popped && x1.popped[|x.popped|..] + x1.tcb.readBuf == x.tcb.readBuf
    ensures Core(x1, y, xy, yx)
  {
    assert x1.popped == x.popped + x1.popped[|x.popped|..];
    assert x1.Received() == x.Received();
    assert Pending(x1) == Pending(x);
    MoveLocal(x, x1);
    Assemble(x, x1, y, xy, yx);
  }

  lemma MoveLocal(x: Node, x1: Node)
    requires Local(x)
    requires x1 == x.(tcb := x.tcb.(readBuf := x1.tcb.readBuf), popped := x1.popped) && x1.Received() == x.Received()
    ensures Local(x1) && Grows(x, x1)
  {
  }

  lemma UserCloseKeeps(x: Node, y: Node, xy: set<TcpSegment>, yx: set<TcpSegment>)
    requires Core(x, y, xy, yx) && Settled(x.tcb)
    ensures var t := Close(Unbounded, x.tcb); Core(With(x, t), y, xy, yx) && Settled(t)
  {
    if x.tcb.state in {SYN_RECEIVED, ESTABLISHED, CLOSE_WAIT} {
      CloseKeeps(x, y, xy, yx);
    } else {
      RelabelKeeps(x, With(x, Close(Unbounded, x.tcb)), y, xy, yx);
    }
  }

  /** A third party's segment is dropped, or is a RST that at most aborts. */
  lemma ForeignKeeps(x: Node, y: Node, xy: set<TcpSegment>, yx: set<TcpSegment>, seg: TcpSegment, srcIp: Ip)
    requires Core(x, y, xy, yx) && Settled(x.tcb) && Foreign(x, y, seg, srcIp)
    ensures var t := OnSegment(Unbounded, x.tcb, seg, srcIp, 0).0; Core(With(x, t), y, xy, yx) && Settled(t)
    ensures OnSegment(Unbounded, x.tcb, seg, srcIp, 0).0.outbox == x.tcb.outbox
    ensures !seg.flags.rst ==> OnSegment(Unbounded, x.tcb, seg, srcIp, 0) == (x.tcb, false)
  {
    if seg.flags.rst {
      RstLocal(x, seg, srcIp);
      hide OnSegment;
      RelabelKeeps(x, With(x, OnSegment(Unbounded, x.tcb, seg, srcIp, 0).0), y, xy, yx);
    } else {
      hide OnListen, OnSynSent, OnSynReceived, OnEstablished;
    }
  }

  lemma RstLocal(x: Node, seg: TcpSegment, srcIp: Ip)
    requires Local(x) && Settled(x.tcb) && seg.flags.rst
    ensures var x1 := With(x, OnSegment(Unbounded, x.tcb, seg, srcIp, 0).0);
            SameBooks(x, x1) && StateOk(x1) && Settled(x1.tcb)
  {
    BlockMeansLatched(x);
    hide SenderOk, ReceiverOk, OnListen, OnSynSent, OnSynReceived, OnEstablished;
  }

  lemma BlockMeansLatched(x: Node)
    requires Local(x)
    ensures x.tcb.haveUnacked ==> Latched(x.tcb)
  {
  }

  // --- Actions -------------------------------------------------------------------

  lemma ReceiveKeeps(n: Node, peer: Node, out: Channel, inp: Channel, seg: TcpSegment, iss: nat)
    requires InvFor(n, peer, out, inp) && seg in inp.sent
    ensures var (n', out') := Receive(Unbounded, n, seg, peer.tcb.localIp, iss, out); InvFor(n', peer, out', inp)
  {
    SegmentKeeps(n, peer, out.sent, inp.sent, seg, iss);
    hide Core, OnSegment;
    FlushKeeps(n, With(n, OnSegment(Unbounded, n.tcb, seg, peer.tcb.localIp, iss).0), peer, out, inp);
  }

  lemma ActKeeps(n: Node, peer: Node, out: Channel, inp: Channel, act: Action)
    requires InvFor(n, peer, out, inp)
    ensures var (n', out', inp') := Act(Unbounded, n, peer, out, inp, act); InvFor(n', peer, out', inp')
  {
    hide Inv, OnSegment, Write, Close, Retransmit, OpenActive, PopRead;
    match act
    case DoOpenActive(_, _) => OpenActiveKeeps(n, peer, out, inp, act);
    case DoOpenListen(_) => OpenListenKeeps(n, peer, out, inp);
    case DoWrite(_, data) => WriteActKeeps(n, peer, out, inp, data);
    case DoClose(_) => CloseActKeeps(n, peer, out, inp);
    case DoPopRead(_, k) => PopReadActKeeps(n, peer, out, inp, k);
    case DoRetransmit(_) => RetransmitActKeeps(n, peer, out, inp);
    case Deliver(_, i, iss) =>
      if i < |inp.flight| && iss < M32 {
        DeliverKeeps(n, peer, out, inp, i, iss);
      }
    case Redeliver(_, seg, iss) =>
      if seg in inp.sent && iss < M32 {
        ReceiveKeeps(n, peer, out, inp, seg, iss);
      }
    case Drop(_, i) =>
      if i < |inp.flight| {
        DropKeeps(n, peer, out, inp, i);
      }
    case Inject(_, seg, srcIp) =>
      if Foreign(n, peer, seg, srcIp) {
        InjectKeeps(n, peer, out, inp, seg, srcIp);
      }
  }

  lemma OpenListenKeeps(n: Node, peer: Node, out: Channel, inp: Channel)
    requires InvFor(n, peer, out, inp)
    ensures var (n', out', inp') := Act(Unbounded, n, peer, out, inp, DoOpenListen(A)); InvFor(n', peer, out', inp')
  {
    OpenListenIs(n, peer, out, inp);
    hide Act, InvFor;
    if !n.started && n.tcb.state == CLOSED {
      ListeningKeeps(n, peer, out, inp);
    }
  }

  function Listening(n: Node): Node { n.(tcb := n.tcb.(state := LISTEN), started := true) }

  lemma OpenListenIs(n: Node, peer: Node, out: Channel, inp: Channel)
    ensures Act(Unbounded, n, peer, out, inp, DoOpenListen(A))
         == (if !n.started && n.tcb.state == CLOSED then Listening(n) else n, out, inp)
  {
    hide OnSegment, OpenActive, Write, Close, Retransmit, PopRead, Flush, Receive;
  }

  lemma ListeningKeeps(n: Node, peer: Node, out: Channel, inp: Channel)
    requires InvFor(n, peer, out, inp) && !n.started && n.tcb.state == CLOSED
    ensures InvFor(Listening(n), peer, out, inp)
  {
    InvParts(n, peer, out, inp);
    ListenState(n, peer, out.sent, inp.sent);
    hide InvFor, Core, StateOk, Wires, SameBooks, Settled, Listening;
    RelabelKeeps(n, Listening(n), peer, out.sent, inp.sent);
    FromParts(Listening(n), peer, out, inp);
  }

  predicate Wires(out: Channel, inp: Channel) {
    (forall seg :: seg in out.flight ==> seg in out.sent) && (forall seg :: seg in inp.flight ==> seg in inp.sent)
  }

  lemma InvParts(n: Node, peer: Node, out: Channel, inp: Channel)
    requires InvFor(n, peer, out, inp)
    ensures Core(n, peer, out.sent, inp.sent) && Settled(n.tcb) && Settled(peer.tcb) && Wires(out, inp)
    ensures n.tcb.outbox == [] && peer.tcb.outbox == []
  {
    hide Core;
  }

  lemma FromParts(n: Node, peer: Node, out: Channel, inp: Channel)
    requires Core(n, peer, out.sent, inp.sent) && Settled(n.tcb) && Settled(peer.tcb) && Wires(out, inp)
    requires n.tcb.outbox == [] && peer.tcb.outbox == []
    ensures InvFor(n, peer, out, inp)
  {
    hide Core;
  }

  lemma ListenState(n: Node, peer: Node, xy: set<TcpSegment>, yx: set<TcpSegment>)
    requires Core(n, peer, xy, yx) && !n.started
    ensures StateOk(Listening(n)) && SameBooks(n, Listening(n)) && Settled(Listening(n).tcb) && Listening(n).tcb.outbox == n.tcb.outbox
  {
    hide Half, SenderOk, ReceiverOk;
  }

  lemma PopReadActKeeps(n: Node, peer: Node, out: Channel, inp: Channel, k: Option<nat>)
    requires InvFor(n, peer, out, inp)
    ensures var (n', out', inp') := Act(Unbounded, n, peer, out, inp, DoPopRead(A, k)); InvFor(n', peer, out', inp')
  {
    PopReadKeeps(n, peer, out.sent, inp.sent, k);
    hide Core;
  }

  lemma DropKeeps(n: Node, peer: Node, out: Channel, inp: Channel, i: nat)
    requires InvFor(n, peer, out, inp) && i < |inp.flight|
    ensures InvFor(n, peer, out, inp.(flight := Without(inp.flight, i)))
  {
    hide Core;
  }

  lemma DeliverKeeps(n: Node, peer: Node, out: Channel, inp: Channel, i: nat, iss: nat)
    requires InvFor(n, peer, out, inp) && i < |inp.flight|
    ensures var (n', out') := Receive(Unbounded, n, inp.flight[i], peer.tcb.localIp, iss, out);
            InvFor(n', peer, out', inp.(flight := Without(inp.flight, i)))
  {
    hide Core, OnSegment;
    ReceiveKeeps(n, peer, out, inp, inp.flight[i], iss);
    DropKeeps(Receive(Unbounded, n, inp.flight[i], peer.tcb.localIp, iss, out).0, peer,
              Receive(Unbounded, n, inp.flight[i], peer.tcb.localIp, iss, out).1, inp, i);
  }

  lemma WriteActKeeps(n: Node, peer: Node, out: Channel, inp: Channel, data: bytes)
    requires InvFor(n, peer, out, inp)
    ensures var (n', out', inp') := Act(Unbounded, n, peer, out, inp, DoWrite(A, data)); InvFor(n', peer, out', inp')
  {
    if Write(Unbounded, n.tcb, data).Ok? {
      WriteKeeps(n, peer, out.sent, inp.sent, data);
      var x := n.(tcb := Write(Unbounded, n.tcb, data).value, written := n.written + data);
        hide Core, Write;
      FlushKeeps(n.(written := n.written + data), x, peer, out, inp);
    }
  }

  lemma CloseActKeeps(n: Node, peer: Node, out: Channel, inp: Channel)
    requires InvFor(n, peer, out, inp)
    ensures var (n', out', inp') := Act(Unbounded, n, peer, out, inp, DoClose(A)); InvFor(n', peer, out', inp')
  {
    UserCloseKeeps(n, peer, out.sent, inp.sent);
    hide Core, Close;
    FlushKeeps(n, With(n, Close(Unbounded, n.tcb)), peer, out, inp);
  }

  lemma RetransmitActKeeps(n: Node, peer: Node, out: Channel, inp: Channel)
    requires InvFor(n, peer, out, inp)
    ensures var (n', out', inp') := Act(Unbounded, n, peer, out, inp, DoRetransmit(A)); InvFor(n', peer, out', inp')
  {
    RetransmitKeeps(n, peer, out.sent, inp.sent);
    hide Core, Retransmit;
    FlushKeeps(n, With(n, Retransmit(Unbounded, n.tcb)), peer, out, inp);
  }

  lemma InjectKeeps(n: Node, peer: Node, out: Channel, inp: Channel, seg: TcpSegment, srcIp: Ip)
    requires InvFor(n, peer, out, inp) && Foreign(n, peer, seg, srcIp)
    ensures var (n', out') := Receive(Unbounded, n, seg, srcIp, 0, out); InvFor(n', peer, out', inp)
  {
    ForeignKeeps(n, peer, out.sent, inp.sent, seg, srcIp);
    hide Core, OnSegment;
    FlushKeeps(n, With(n, OnSegment(Unbounded, n.tcb, seg, srcIp, 0).0), peer, out, inp);
  }

  lemma OpenActiveKeeps(n: Node, peer: Node, out: Channel, inp: Channel, act: Action)
    requires InvFor(n, peer, out, inp) && act.DoOpenActive?
    ensures var (n', out', inp') := Act(Unbounded, n, peer, out, inp, act); InvFor(n', peer, out', inp')
  {
    if n.tcb.state == CLOSED && !n.started && act.iss < M32 {
      OpenKeeps(n, peer, out.sent, inp.sent, act.iss);
      var t := OpenActive(Unbounded, n.tcb, peer.tcb.localIp, peer.tcb.localPort, act.iss).value;
      FlushKeeps(n.(started := true), With(n, t).(started := true), peer, out, inp);
    }
  }

  lemma StepKeeps(s: Sys, act: Action)
    requires Inv(s)
    ensures Inv(Step(Unbounded, s, act))
  {
    hide Core, Act;
    if act.side == A {
      ActKeeps(s.a, s.b, s.ab, s.ba, act);
    } else {
      FlipInv(s);
      ActKeeps(s.b, s.a, s.ba, s.ab, act);
      FlipInv(ActA(Unbounded, s.Flip(), act));
    }
  }

  /** Every reachable state of the unbounded machine satisfies the invariant. */
  lemma {:induction false} RunInv(c: Config, acts: seq<Action>)
    ensures Inv(Run(Unbounded, Start(c), acts))
  {
    if acts == [] {
      StartInv(c);
    } else {
      RunInv(c, acts[..|acts| - 1]);
      StepKeeps(Run(Unbounded, Start(c), acts[..|acts| - 1]), acts[|acts| - 1]);
    }
  }
}
