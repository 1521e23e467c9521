/** A RST ends a connection for good, and the tables of TcpTable apply in every reachable state. */
module TcpReset {
  import opened Bytes
  import opened SeqArith
  import opened Segment
  import opened TcpMachine
  import opened TcpNetwork
  import opened TcpInvariant
  import opened TcpSimulation
  import opened TcpRefine
  import opened TcpTheorems
  import opened TcpTable

  // --- After a RST ---------------------------------------------------------------------------

  /** Closed by a RST: what was received stays, and nothing more is. */
  predicate ResetFrom(n: Node, n': Node) {
    n'.started && n'.tcb.state == CLOSED && n'.tcb.aborted && n'.Received() == n.Received()
  }

  predicate Reset(n: Node) { n.started && n.tcb.state == CLOSED && n.tcb.aborted }

  /** The RST the connection obeys: from its peer if it has one, and in SYN_SENT of its SYN. */
  predicate Obeyed(t: Tcb, seg: TcpSegment, srcIp: Ip) {
    && seg.flags.rst && FromPeerOf(t, seg, srcIp)
    && (t.state == SYN_SENT ==> seg.flags.ack && seg.ackNo == (t.iss + 1) % M32)
  }

  lemma SegmentAfterReset(t: Tcb, seg: TcpSegment, srcIp: Ip, iss: nat)
    requires t.state == CLOSED && t.aborted
    ensures var t' := OnSegment(Mod32, t, seg, srcIp, iss).0;
            t'.state == CLOSED && t'.aborted && t'.readBuf == t.readBuf
  {
    if seg.flags.rst { RstTable(t, seg, srcIp, iss); } else { ClosedTable(t, seg, srcIp, iss); }
    hide OnSegment;
  }

  lemma CallAfterReset(t: Tcb, data: bytes)
    requires t.state == CLOSED
    ensures Write(Mod32, t, data) == Ok(t.(sendBuf := t.sendBuf + data)) && Close(Mod32, t) == t
    ensures Retransmit(Mod32, t) == t.(outbox := Retransmit(Mod32, t).outbox)
  {
    CloseTable(t);
    RetransmitTable(t);
    hide Close, Retransmit, FlushSend;
  }

  lemma ReceiveAfterReset(n: Node, seg: TcpSegment, srcIp: Ip, iss: nat, out: Channel)
    requires Reset(n)
    ensures ResetFrom(n, Receive(Mod32, n, seg, srcIp, iss, out).0)
  {
    SegmentAfterReset(n.tcb, seg, srcIp, iss);
    hide OnSegment;
  }

  lemma UserAfterReset(n: Node, peer: Node, out: Channel, inp: Channel, act: Action)
    requires Reset(n) && (act.DoWrite? || act.DoClose? || act.DoPopRead? || act.DoRetransmit?)
    ensures ResetFrom(n, Act(Mod32, n, peer, out, inp, act).0)
  {
    CallAfterReset(n.tcb, if act.DoWrite? then act.data else []);
    if act.DoPopRead? { PopReadSplits(n.tcb, act.n); }
    hide Write, Close, PopRead, Retransmit, Receive;
  }

  lemma PopReadSplits(t: Tcb, n: Option<nat>)
    ensures var (out, t') := PopRead(t, n); out + t'.readBuf == t.readBuf && t' == t.(readBuf := t'.readBuf)
  {
    PopReadTable(t, n);
    hide PopRead;
  }

  lemma ActAfterReset(n: Node, peer: Node, out: Channel, inp: Channel, act: Action)
    requires Reset(n)
    ensures ResetFrom(n, Act(Mod32, n, peer, out, inp, act).0)
  {
    hide Receive, Flush, Foreign, Without;
    match act
    case Deliver(_, i, iss) =>
      if i < |inp.flight| { ReceiveAfterReset(n, inp.flight[i], peer.tcb.localIp, iss, out); }
    case Redeliver(_, seg, iss) => ReceiveAfterReset(n, seg, peer.tcb.localIp, iss, out);
    case Inject(_, seg, srcIp) => ReceiveAfterReset(n, seg, srcIp, 0, out);
    case DoOpenActive(_, _) =>
    case DoOpenListen(_) =>
    case Drop(_, _) =>
    case _ => UserAfterReset(n, peer, out, inp, act);
  }

  lemma StepAfterReset(s: Sys, act: Action, side: Side)
    requires Reset(s.From(side).a)
    ensures ResetFrom(s.From(side).a, Step(Mod32, s, act).From(side).a)
  {
    var r := s.From(side);
    ActAfterReset(r.a, r.b, r.ab, r.ba, act);
    hide Act;
  }

  lemma {:induction false} StaysReset(c: Config, acts: seq<Action>, more: seq<Action>, side: Side)
    requires Reset(Reach(c, acts).From(side).a)
    ensures ResetFrom(Reach(c, acts).From(side).a, Reach(c, acts + more).From(side).a)
  {
    if more == [] {
      assert acts + more == acts;
    } else {
      var init, last := more[..|more| - 1], more[|more| - 1];
      StaysReset(c, acts, init, side);
      ReachMore(c, acts, more);
      hide Reach, Step;
      StepAfterReset(Reach(c, acts + init), last, side);
    }
  }

  lemma InjectResets(s: Sys, side: Side, seg: TcpSegment, srcIp: Ip)
    requires var n := s.From(side).a; n.started && Obeyed(n.tcb, seg, srcIp)
    ensures ResetFrom(s.From(side).a, Step(Mod32, s, Inject(side, seg, srcIp)).From(side).a)
  {
    RstTable(s.From(side).a.tcb, seg, srcIp, 0);
    hide OnSegment;
  }

  /** Once a RST that the connection obeys arrives, the side is closed and aborted in every
      continuation, and receives nothing more. */
  lemma ResetForGood(c: Config, acts: seq<Action>, more: seq<Action>, side: Side, seg: TcpSegment, srcIp: Ip)
    requires var n := Reach(c, acts).From(side).a; n.started && Obeyed(n.tcb, seg, srcIp)
    ensures ResetFrom(Reach(c, acts).From(side).a, Reach(c, acts + [Inject(side, seg, srcIp)] + more).From(side).a)
  {
    ReachMore(c, acts, [Inject(side, seg, srcIp)]);
    assert acts + [] == acts;
    hide Reach, Step, Obeyed;
    InjectResets(Reach(c, acts), side, seg, srcIp);
    StaysReset(c, acts + [Inject(side, seg, srcIp)], more, side);
  }

  /** A RST that is not obeyed changes nothing at all. */
  lemma RstRefused(s: Sys, side: Side, seg: TcpSegment, srcIp: Ip)
    requires seg.flags.rst && !Obeyed(s.From(side).a.tcb, seg, srcIp) && s.From(side).a.tcb.outbox == []
    ensures Step(Mod32, s, Inject(side, seg, srcIp)) == s
  {
    var r := s.From(side);
    if FromPeerOf(r.a.tcb, seg, srcIp) { RstTable(r.a.tcb, seg, srcIp, 0); } else { StrangerTable(r.a.tcb, seg, srcIp, 0); }
    hide OnSegment;
    assert r.a.tcb.(outbox := []) == r.a.tcb;
    assert r.ab.sent + (set q | q in []) == r.ab.sent && r.ab.flight + [] == r.ab.flight;
  }

  // --- The tables apply --------------------------------------------------------------------------

  /** What the tables ask of a control block and of a segment holds in every reachable state:
      numbers have 32 bits, and a side that has seen its peer's SYN knows a positive MSS. */
  lemma TablesApply(c: Config, acts: seq<Action>, side: Side)
    requires SmallSys(Reach(c, acts))
    ensures var s := Reach(c, acts).From(side);
            && s.a.tcb.sndNxt < M32 && (Synced(s.a.tcb) ==> s.a.tcb.peerMss >= 536)
            && (s.a.tcb.state == SYN_RECEIVED ==> !s.a.tcb.finReceived)
            && forall seg :: seg in s.ba.sent ==> seg.ackNo < M32 && seg.seqNo < M32 && !seg.flags.rst
  {
    var u := BehindBoth(c, acts);
    NoRstSent(c, acts, if side == A then B else A);
    var x := u.From(side).a;
    assert Local(x);
    hide Half, SenderOk;
    forall seg | seg in WrapChannel(u.From(side).ba).sent ensures seg.ackNo < M32 && seg.seqNo < M32 {
      var q :| q in u.From(side).ba.sent && WrapSeg(q) == seg;
    }
  }
}
