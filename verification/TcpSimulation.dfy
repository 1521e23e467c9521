/** Runs of the 32-bit machine are wrapped runs of the unbounded machine. */
module TcpSimulation {
  import opened Bytes
  import opened SeqArith
  import opened Segment
  import opened TcpMachine
  import opened TcpNetwork
  import opened TcpInvariant
  import opened TcpSafety
  import opened TcpRuns
  import opened TcpRefine

  predicate Small(x: Node) { |x.written| <= MAX_STREAM }

  lemma CoreNear(x: Node, y: Node, xy: set<TcpSegment>, yx: set<TcpSegment>)
    requires Core(x, y, xy, yx) && Small(x)
    ensures Near(x.tcb)
    ensures x.tcb.state == SYN_RECEIVED ==> x.tcb.sndUna == x.tcb.iss < x.tcb.sndNxt && !x.tcb.haveUnacked
  {
    hide Half;
  }

  /** Every segment the peer ever sent is within reach. */
  lemma CoreSegNear(x: Node, y: Node, xy: set<TcpSegment>, yx: set<TcpSegment>, seg: TcpSegment)
    requires Core(x, y, xy, yx) && Small(x) && Small(y) && seg in yx
    ensures SegNear(x.tcb, seg)
  {
    assert PktOk(seg, y);
    if seg.flags.ack {
      assert y.tcb.irs == x.tcb.iss && StreamOk(x, y);
    }
    if Windowed(x.tcb) {
      assert x.tcb.irs == y.tcb.iss && StreamOk(y, x);
    }
  }

  lemma WrapDispatched(x: Node, y: Node, xy: set<TcpSegment>, yx: set<TcpSegment>, seg: TcpSegment, iss: nat)
    requires Core(x, y, xy, yx) && Small(x) && Small(y) && seg in yx && iss < M32
    ensures OnSegment(Mod32, WrapTcb(x.tcb), WrapSeg(seg), y.tcb.localIp, iss).0
         == WrapTcb(OnSegment(Unbounded, x.tcb, seg, y.tcb.localIp, iss).0)
  {
    FromPeer(x, y, xy, yx, seg);
    CoreNear(x, y, xy, yx);
    CoreSegNear(x, y, xy, yx, seg);
    if x.tcb.state == LISTEN { ListenerSeesNoAck(x, y, xy, yx, seg); }
    hide Core, SegNear, Small;
    WrapDispatch(x.tcb, seg, y.tcb.localIp, iss);
  }

  lemma WrapDispatch(t: Tcb, seg: TcpSegment, srcIp: Ip, iss: nat)
    requires Near(t) && SegNear(t, seg) && iss < M32 && !seg.flags.rst
    requires t.state != CLOSED && t.state != LISTEN ==> seg.srcPort == t.remotePort && t.remoteIp == Some(srcIp)
    requires t.state == SYN_RECEIVED ==> t.sndUna == t.iss < t.sndNxt && !t.haveUnacked
    requires t.state == LISTEN ==> !seg.flags.ack
    ensures OnSegment(Mod32, WrapTcb(t), WrapSeg(seg), srcIp, iss).0 == WrapTcb(OnSegment(Unbounded, t, seg, srcIp, iss).0)
  {
    WrapFields(t);
    hide SegNear, OnListen, OnSynSent, OnSynReceived, OnEstablished, HandleRst, EmitPureAck, Near, WrapTcb;
    match t.state
    case CLOSED =>
    case LISTEN => WrapOnListen(t, seg, srcIp, iss);
    case SYN_SENT => WrapOnSynSent(t, seg);
    case SYN_RECEIVED => WrapOnSynReceived(t, seg);
    case TIME_WAIT => WrapPureAck(t);
    case _ => WrapOnEstablished(t, seg);
  }

  // --- The network ---------------------------------------------------------------

  lemma WrapFlush(n: Node, t: Tcb, out: Channel)
    ensures var (n', out') := Flush(n, t, out);
            Flush(WrapNode(n), WrapTcb(t), WrapChannel(out)) == (WrapNode(n'), WrapChannel(out'))
  {
    WrapEmptied(t);
    WrapSentMore(out.sent, t.outbox);
    assert WrapSegs(out.flight + t.outbox) == WrapSegs(out.flight) + WrapSegs(t.outbox);
    hide WrapSegs, W, WrapSeg;
    var (n', out') := Flush(n, t, out);
    var (u, w) := Flush(WrapNode(n), WrapTcb(t), WrapChannel(out));
    assert WrapTcb(t).outbox == WrapSegs(t.outbox) && WrapTcb(t).remoteIp == t.remoteIp;
    assert u == WrapNode(n');
    assert w.flight == WrapChannel(out').flight;
    assert w.sent == WrapChannel(out').sent;
  }

  lemma WrapEmptied(t: Tcb)
    ensures WrapTcb(t.(outbox := [])) == WrapTcb(t).(outbox := [])
  {
    assert WrapSegs([]) == [];
    hide W, WrapSeg;
  }

  lemma WrapSentMore(sent: set<TcpSegment>, segs: seq<TcpSegment>)
    ensures (set s | s in sent + (set q | q in segs) :: WrapSeg(s))
         == (set s | s in sent :: WrapSeg(s)) + (set s | s in WrapSegs(segs))
  {
    WrapSent(segs);
    var more := set s | s in segs;
    assert (set s | s in sent + more :: WrapSeg(s)) == (set s | s in sent :: WrapSeg(s)) + (set s | s in more :: WrapSeg(s));
    hide WrapSeg, WrapSegs;
  }

  lemma WrapSent(segs: seq<TcpSegment>)
    ensures (set s | s in WrapSegs(segs)) == (set s | s in (set q | q in segs) :: WrapSeg(s))
  {
    var wrapped := WrapSegs(segs);
    forall s | s in (set q | q in segs) ensures WrapSeg(s) in wrapped {
      var i :| 0 <= i < |segs| && segs[i] == s;
      assert wrapped[i] == WrapSeg(s);
    }
  }

  lemma WrapWithout(s: seq<TcpSegment>, i: nat)
    requires i < |s|
    ensures WrapSegs(Without(s, i)) == Without(WrapSegs(s), i)
  {
  }

  /** A forged RST is only ever compared with the ISS; this number compares the same way. */
  function Forged(t: Tcb, seg: TcpSegment): TcpSegment {
    seg.(ackNo := if seg.ackNo == W(t.iss + 1) then t.iss + 1 else 0)
  }

  lemma WrapRst(t: Tcb, seg: TcpSegment)
    ensures HandleRst(Mod32, WrapTcb(t), seg).0 == WrapTcb(HandleRst(Unbounded, t, Forged(t, seg)).0)
  {
    NormStep(t.iss, 1);
  }

  lemma WrapForeign(x: Node, y: Node, xy: set<TcpSegment>, yx: set<TcpSegment>, seg: TcpSegment, srcIp: Ip)
    requires Core(x, y, xy, yx) && Settled(x.tcb) && Foreign(x, y, seg, srcIp)
    ensures Foreign(x, y, Forged(x.tcb, seg), srcIp)
    ensures OnSegment(Mod32, WrapTcb(x.tcb), seg, srcIp, 0).0
         == WrapTcb(OnSegment(Unbounded, x.tcb, Forged(x.tcb, seg), srcIp, 0).0)
  {
    WrapRst(x.tcb, seg);
    WrapFields(x.tcb);
    ForeignKeeps(x, y, xy, yx, Forged(x.tcb, seg), srcIp);
    hide HandleRst, OnListen, OnSynSent, OnSynReceived, OnEstablished, WrapTcb, Half, SenderOk, ReceiverOk;
  }

  // --- One action ------------------------------------------------------------------

  /** The unbounded machine's version of an action of the 32-bit machine. */
  ghost function Lift(n: Node, inp: Channel, act: Action): Action {
    match act
    case Redeliver(side, seg, iss) =>
      if seg in WrapChannel(inp).sent then
        (assert exists s :: s in inp.sent && WrapSeg(s) == seg;
         var s :| s in inp.sent && WrapSeg(s) == seg; Redeliver(side, s, iss))
      else Drop(side, |inp.flight|)
    case Inject(side, seg, srcIp) => Inject(side, Forged(n.tcb, seg), srcIp)
    case _ => act
  }

  lemma WrapReceive(n: Node, peer: Node, out: Channel, inp: Channel, seg: TcpSegment, iss: nat)
    requires InvFor(n, peer, out, inp) && Small(n) && Small(peer) && seg in inp.sent && iss < M32
    ensures var (n', out') := Receive(Unbounded, n, seg, peer.tcb.localIp, iss, out);
            Receive(Mod32, WrapNode(n), WrapSeg(seg), peer.tcb.localIp, iss, WrapChannel(out))
            == (WrapNode(n'), WrapChannel(out'))
  {
    WrapDispatched(n, peer, out.sent, inp.sent, seg, iss);
    hide Core, OnSegment, WrapChannel, WrapTcb;
    WrapFlush(n, OnSegment(Unbounded, n.tcb, seg, peer.tcb.localIp, iss).0, out);
    hide Flush;
  }

  ghost predicate Matches(n: Node, peer: Node, out: Channel, inp: Channel, act: Action, act': Action) {
    var (n', out', inp') := Act(Unbounded, n, peer, out, inp, act');
    Act(Mod32, WrapNode(n), WrapNode(peer), WrapChannel(out), WrapChannel(inp), act)
    == (WrapNode(n'), WrapChannel(out'), WrapChannel(inp'))
  }

  lemma WrapDeliver(n: Node, peer: Node, out: Channel, inp: Channel, act: Action)
    requires InvFor(n, peer, out, inp) && Small(n) && Small(peer) && act.Deliver?
    ensures Matches(n, peer, out, inp, act, act)
  {
    WrapFields(peer.tcb);
    assert WrapTcb(peer.tcb).localIp == peer.tcb.localIp;
    if act.i < |inp.flight| && act.iss < M32 {
      var seg := inp.flight[act.i];
      WrapReceive(n, peer, out, inp, seg, act.iss);
      WrapWithout(inp.flight, act.i);
    }
    hide Core, Receive, WrapTcb, Without, Inv;
  }

  lemma WrapRedeliver(n: Node, peer: Node, out: Channel, inp: Channel, act: Action)
    requires InvFor(n, peer, out, inp) && Small(n) && Small(peer) && act.Redeliver?
    ensures Matches(n, peer, out, inp, act, Lift(n, inp, act))
  {
    assert WrapTcb(peer.tcb).localIp == peer.tcb.localIp;
    var act' := Lift(n, inp, act);
    if act.seg in WrapChannel(inp).sent && act.iss < M32 {
      WrapReceive(n, peer, out, inp, act'.seg, act.iss);
    }
    hide Core, Receive, WrapTcb, Inv;
  }

  lemma WrapInject(n: Node, peer: Node, out: Channel, inp: Channel, act: Action)
    requires InvFor(n, peer, out, inp) && act.Inject?
    ensures Matches(n, peer, out, inp, act, Lift(n, inp, act))
  {
    ForeignAlike(n, peer, act.seg, act.srcIp);
    hide OnSegment, WrapNode, WrapChannel, InvFor, Forged, Foreign;
    if Foreign(n, peer, act.seg, act.srcIp) {
      WrapForeignReceive(n, peer, out, inp, act.seg, act.srcIp);
    }
    hide Receive;
  }

  lemma ForeignAlike(n: Node, peer: Node, seg: TcpSegment, srcIp: Ip)
    ensures Foreign(WrapNode(n), WrapNode(peer), seg, srcIp) <==> Foreign(n, peer, seg, srcIp)
    ensures Foreign(n, peer, Forged(n.tcb, seg), srcIp) <==> Foreign(n, peer, seg, srcIp)
  {
    WrapFields(n.tcb);
    assert WrapTcb(peer.tcb).localIp == peer.tcb.localIp && WrapTcb(peer.tcb).localPort == peer.tcb.localPort;
    hide WrapTcb;
  }

  lemma WrapForeignReceive(n: Node, peer: Node, out: Channel, inp: Channel, seg: TcpSegment, srcIp: Ip)
    requires InvFor(n, peer, out, inp) && Foreign(n, peer, seg, srcIp)
    ensures var (n', out') := Receive(Unbounded, n, Forged(n.tcb, seg), srcIp, 0, out);
            Receive(Mod32, WrapNode(n), seg, srcIp, 0, WrapChannel(out)) == (WrapNode(n'), WrapChannel(out'))
  {
    WrapForeign(n, peer, out.sent, inp.sent, seg, srcIp);
    hide Core, OnSegment, WrapTcb, WrapChannel, Forged;
    WrapFlush(n, OnSegment(Unbounded, n.tcb, Forged(n.tcb, seg), srcIp, 0).0, out);
    hide Flush;
  }

  lemma WrapOpen(n: Node, peer: Node, out: Channel, inp: Channel, act: Action)
    requires act.DoOpenActive? || act.DoOpenListen?
    ensures Matches(n, peer, out, inp, act, act)
  {
    var t := n.tcb;
    assert WrapTcb(peer.tcb).localIp == peer.tcb.localIp && WrapTcb(peer.tcb).localPort == peer.tcb.localPort;
    WrapFields(t);
    if act.DoOpenListen? {
      WrapState(t, LISTEN);
    } else if t.state == CLOSED && act.iss < M32 {
      WrapOpenActive(t, peer.tcb.localIp, peer.tcb.localPort, act.iss);
      WrapFlush(n.(started := true), OpenActive(Unbounded, t, peer.tcb.localIp, peer.tcb.localPort, act.iss).value, out);
    }
    hide WrapTcb, WrapChannel, Flush, Emit;
  }

  lemma WrapWriteAct(n: Node, peer: Node, out: Channel, inp: Channel, act: Action)
    requires act.DoWrite?
    ensures Matches(n, peer, out, inp, act, act)
  {
    WrapWrite(n.tcb, act.data);
    if Write(Unbounded, n.tcb, act.data).Ok? {
      WrapFlush(n.(written := n.written + act.data), Write(Unbounded, n.tcb, act.data).value, out);
    }
    hide WrapTcb, WrapChannel, Flush, Write;
  }

  lemma WrapCloseAct(n: Node, peer: Node, out: Channel, inp: Channel, act: Action)
    requires act.DoClose?
    ensures Matches(n, peer, out, inp, act, act)
  {
    WrapClose(n.tcb);
    WrapFlush(n, Close(Unbounded, n.tcb), out);
    hide WrapTcb, WrapChannel, Flush, Close;
  }

  lemma WrapRetransmitAct(n: Node, peer: Node, out: Channel, inp: Channel, act: Action)
    requires act.DoRetransmit?
    ensures Matches(n, peer, out, inp, act, act)
  {
    WrapRetransmit(n.tcb);
    WrapFlush(n, Retransmit(Unbounded, n.tcb), out);
    hide WrapTcb, WrapChannel, Flush, Retransmit;
  }

  lemma WrapPopReadAct(n: Node, peer: Node, out: Channel, inp: Channel, act: Action)
    requires act.DoPopRead?
    ensures Matches(n, peer, out, inp, act, act)
  {
    WrapPopRead(n.tcb, act.n);
    hide WrapChannel, WrapTcb, PopRead;
  }

  lemma WrapPopRead(t: Tcb, n: Option<nat>)
    ensures var (out, t') := PopRead(t, n); PopRead(WrapTcb(t), n) == (out, WrapTcb(t'))
  {
    hide WrapSegs, W;
  }

  lemma WrapDrop(n: Node, peer: Node, out: Channel, inp: Channel, act: Action)
    requires act.Drop?
    ensures Matches(n, peer, out, inp, act, act)
  {
    if act.i < |inp.flight| {
      WrapWithout(inp.flight, act.i);
    }
    hide WrapTcb, Without;
  }

  lemma WrapAct(n: Node, peer: Node, out: Channel, inp: Channel, act: Action)
    requires InvFor(n, peer, out, inp) && Small(n) && Small(peer)
    ensures Matches(n, peer, out, inp, act, Lift(n, inp, act))
  {
    hide Matches, Inv;
    match act
    case DoOpenActive(_, _) => WrapOpen(n, peer, out, inp, act);
    case DoOpenListen(_) => WrapOpen(n, peer, out, inp, act);
    case DoWrite(_, _) => WrapWriteAct(n, peer, out, inp, act);
    case DoClose(_) => WrapCloseAct(n, peer, out, inp, act);
    case DoPopRead(_, _) => WrapPopReadAct(n, peer, out, inp, act);
    case DoRetransmit(_) => WrapRetransmitAct(n, peer, out, inp, act);
    case Deliver(_, _, _) => WrapDeliver(n, peer, out, inp, act);
    case Redeliver(_, _, _) => WrapRedeliver(n, peer, out, inp, act);
    case Drop(_, _) => WrapDrop(n, peer, out, inp, act);
    case Inject(_, _, _) => WrapInject(n, peer, out, inp, act);
  }

  // --- Runs ------------------------------------------------------------------------

  ghost function LiftSys(s: Sys, act: Action): (act': Action)
    ensures act'.side == act.side
  {
    if act.side == A then Lift(s.a, s.ba, act) else Lift(s.b, s.ab, act)
  }

  lemma WrapStep(s: Sys, act: Action)
    requires Inv(s) && Small(s.a) && Small(s.b)
    ensures Step(Mod32, WrapSys(s), act) == WrapSys(Step(Unbounded, s, LiftSys(s, act)))
  {
    if act.side == A {
      WrapAct(s.a, s.b, s.ab, s.ba, act);
    } else {
      FlipInv(s);
      WrapAct(s.b, s.a, s.ba, s.ab, act);
    }
    hide Inv, Act, Lift, WrapNode, WrapChannel;
  }

  lemma ActWritten(m: Arith, n: Node, peer: Node, out: Channel, inp: Channel, act: Action)
    ensures n.written <= Act(m, n, peer, out, inp, act).0.written
  {
    hide OnSegment, OpenActive, OpenListen, Write, Close, Retransmit, PopRead;
  }

  lemma StepWritten(m: Arith, s: Sys, act: Action)
    ensures s.a.written <= Step(m, s, act).a.written && s.b.written <= Step(m, s, act).b.written
  {
    ActWritten(m, s.a, s.b, s.ab, s.ba, act);
    ActWritten(m, s.b, s.a, s.ba, s.ab, act);
    hide Act;
  }

  predicate SmallSys(s: Sys) { Small(s.a) && Small(s.b) }

  /** The unbounded run behind a 32-bit run. */
  ghost function LiftRun(c: Config, acts: seq<Action>): (r: seq<Action>)
    ensures |r| == |acts|
  {
    if acts == [] then []
    else
      var before := LiftRun(c, acts[..|acts| - 1]);
      before + [LiftSys(Run(Unbounded, Start(c), before), acts[|acts| - 1])]
  }

  /** The unbounded state behind the 32-bit state a run leads to. */
  ghost function Behind(c: Config, acts: seq<Action>): Sys { Run(Unbounded, Start(c), LiftRun(c, acts)) }

  /** Refinement: every 32-bit run of streams below the bound is a wrapped unbounded run. */
  lemma {:induction false} Refines(c: Config, acts: seq<Action>)
    requires SmallSys(Run(Mod32, Start(c), acts))
    ensures Inv(Behind(c, acts)) && SmallSys(Behind(c, acts))
    ensures Run(Mod32, Start(c), acts) == WrapSys(Behind(c, acts))
  {
    RunInv(c, LiftRun(c, acts));
    if acts == [] {
      StartWraps(c);
    } else {
      var init, last := acts[..|acts| - 1], acts[|acts| - 1];
      StepWritten(Mod32, Run(Mod32, Start(c), init), last);
      Refines(c, init);
      WrapStep(Behind(c, init), last);
      assert LiftRun(c, acts)[..|acts| - 1] == LiftRun(c, init);
      hide Inv, Step, LiftSys, WrapTcb, WrapChannel;
    }
  }

  lemma StartWraps(c: Config)
    ensures WrapSys(Start(c)) == Start(c)
  {
    assert WrapSegs([]) == [];
  }
}
