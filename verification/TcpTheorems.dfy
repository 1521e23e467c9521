/** What the 32-bit connections promise in every run over the network.

    c fixes the two addresses; acts is any list of user calls, deliveries,
    duplications, losses, retransmissions, closes and forged segments. */
module TcpTheorems {
  import opened Bytes
  import opened SeqArith
  import opened Segment
  import opened TcpMachine
  import opened TcpNetwork
  import opened TcpInvariant
  import opened TcpSteps
  import opened TcpSafety
  import opened TcpRuns
  import opened TcpRefine
  import opened TcpSimulation

  function Reach(c: Config, acts: seq<Action>): Sys { Run(Mod32, Start(c), acts) }

  lemma ReachMore(c: Config, acts: seq<Action>, more: seq<Action>)
    requires more != []
    ensures Reach(c, acts + more) == Step(Mod32, Reach(c, acts + more[..|more| - 1]), more[|more| - 1])
  {
    LastOfBoth(acts, more);
    RunLast(Start(c), acts + more);
    hide Run, Step, Start;
  }

  lemma LastOfBoth(acts: seq<Action>, more: seq<Action>)
    requires more != []
    ensures var all := acts + more;
            all[..|all| - 1] == acts + more[..|more| - 1] && all[|all| - 1] == more[|more| - 1]
  {
  }

  lemma RunLast(s: Sys, acts: seq<Action>)
    requires acts != []
    ensures Run(Mod32, s, acts) == Step(Mod32, Run(Mod32, s, acts[..|acts| - 1]), acts[|acts| - 1])
  {
    hide Step;
  }

  /** The invariant, seen from either side. */
  lemma BehindBoth(c: Config, acts: seq<Action>) returns (u: Sys)
    requires SmallSys(Reach(c, acts))
    ensures WrapSys(u) == Reach(c, acts) && SmallSys(u) && Inv(u) && Inv(u.Flip())
  {
    Refines(c, acts);
    u := Behind(c, acts);
    FlipInv(u);
  }

  // --- Stream safety ---------------------------------------------------------------

  /** What a side has read is the beginning of what its peer has written. */
  lemma StreamSafety(c: Config, acts: seq<Action>)
    requires SmallSys(Reach(c, acts))
    ensures var s := Reach(c, acts); s.b.Received() <= s.a.written && s.a.Received() <= s.b.written
  {
    var u := BehindBoth(c, acts);
    SafeHalf(u.a, u.b, u.ab.sent, u.ba.sent);
    SafeHalf(u.b, u.a, u.ba.sent, u.ab.sent);
    hide Inv, WrapTcb, WrapChannel;
    WrapBuffers(u.a);
    WrapBuffers(u.b);
  }

  lemma SafeHalf(x: Node, y: Node, xy: set<TcpSegment>, yx: set<TcpSegment>)
    requires Core(x, y, xy, yx)
    ensures y.Received() <= x.written
  {
    if Latched(y.tcb) { assert StreamOk(x, y); }
  }

  lemma WrapBuffers(n: Node)
    ensures WrapNode(n).Received() == n.Received() && WrapNode(n).written == n.written && Emitted(WrapNode(n)) == Emitted(n)
    ensures var t, u := n.tcb, WrapNode(n).tcb;
            && u.state == t.state && u.finSent == t.finSent && u.finReceived == t.finReceived && u.aborted == t.aborted
            && u.haveUnacked == t.haveUnacked && u.unackedData == t.unackedData && u.sendBuf == t.sendBuf
  {
  }

  // --- Closing -----------------------------------------------------------------------

  /** y has taken x's FIN and every byte x ever emitted. */
  predicate HasAll(x: Node, y: Node) {
    y.tcb.finReceived && Emitted(x) <= |x.written| && 0 <= Emitted(x) && y.Received() == x.written[..Emitted(x)]
  }

  /** fin_sent and fin_received agree with the state, and so does the acknowledged FIN. */
  predicate FlagsMatch(t: Tcb) {
    match t.state
    case CLOSED => t.finSent && !t.aborted ==> t.finReceived && FinAcked(t)
    case LISTEN | SYN_SENT | SYN_RECEIVED | ESTABLISHED => !t.finSent && !t.finReceived
    case FIN_WAIT_1 => t.finSent && !t.finReceived && !FinAcked(t)
    case FIN_WAIT_2 => t.finSent && !t.finReceived && FinAcked(t)
    case CLOSE_WAIT => !t.finSent && t.finReceived
    case CLOSING | LAST_ACK => t.finSent && t.finReceived && !FinAcked(t)
    case TIME_WAIT => t.finSent && t.finReceived && FinAcked(t)
  }

  /** Once a side's FIN is acknowledged (FIN_WAIT_2, TIME_WAIT, or CLOSED out of
      LAST_ACK), its peer has consumed everything. */
  lemma GracefulClose(c: Config, acts: seq<Action>)
    requires SmallSys(Reach(c, acts))
    ensures var s := Reach(c, acts);
            && FlagsMatch(s.a.tcb) && (FinAcked(s.a.tcb) ==> HasAll(s.a, s.b))
            && FlagsMatch(s.b.tcb) && (FinAcked(s.b.tcb) ==> HasAll(s.b, s.a))
  {
    var u := BehindBoth(c, acts);
    CloseHalf(u.a, u.b, u.ab.sent, u.ba.sent);
    CloseHalf(u.b, u.a, u.ba.sent, u.ab.sent);
    hide Inv, WrapTcb, WrapChannel, FinAcked;
    WrapBuffers(u.a);
    WrapBuffers(u.b);
  }

  /** The state in which the close transitions are looked at. */
  function PeerFinTaken(m: Arith, t: Tcb, seg: TcpSegment): Tcb {
    if seg.flags.fin && seg.seqNo + |seg.payload| == t.rcvNxt then HandlePeerFin(m, t) else t
  }

  /** The branch for an acknowledged FIN in FIN_WAIT_1 never finds the peer's FIN already
      received: whatever segment comes, that FIN has led out of FIN_WAIT_1. */
  lemma NoFinInFinWait1(c: Config, acts: seq<Action>, side: Side, seg: TcpSegment)
    requires SmallSys(Reach(c, acts))
    ensures var t := Reach(c, acts).From(side).a.tcb;
            var t1 := PeerFinTaken(Mod32, TakeData(Mod32, TakeAck(Mod32, t, seg), seg), seg);
            !(t1.state == FIN_WAIT_1 && t1.finReceived)
  {
    GracefulClose(c, acts);
    var t := Reach(c, acts).From(side).a.tcb;
    hide Reach;
    StateAndFinStay(t, seg);
    hide TakeAck, TakeData;
  }

  lemma StateAndFinStay(t: Tcb, seg: TcpSegment)
    ensures var t2 := TakeData(Mod32, TakeAck(Mod32, t, seg), seg);
            t2.state == t.state && t2.finReceived == t.finReceived
  {
    AckLeavesFin(t, seg);
    DataLeavesFin(TakeAck(Mod32, t, seg), seg);
    hide TakeAck, TakeData;
  }

  lemma AckLeavesFin(t: Tcb, seg: TcpSegment)
    ensures var t1 := TakeAck(Mod32, t, seg); t1.state == t.state && t1.finReceived == t.finReceived
  {
    hide AcksNew;
  }

  lemma DataLeavesFin(t: Tcb, seg: TcpSegment)
    ensures var t1 := TakeData(Mod32, t, seg); t1.state == t.state && t1.finReceived == t.finReceived
  {
    hide Plain;
  }

  lemma CloseHalf(x: Node, y: Node, xy: set<TcpSegment>, yx: set<TcpSegment>)
    requires Core(x, y, xy, yx) && Settled(x.tcb) && Small(x)
    ensures FlagsMatch(WrapNode(x).tcb)
    ensures FinAcked(WrapNode(x).tcb) ==> HasAll(x, y)
  {
    CoreNear(x, y, xy, yx);
    FinAckedExact(x.tcb);
    WrapBuffers(x);
    if FinAcked(x.tcb) {
      assert StreamOk(x, y);
    }
    hide WrapTcb;
  }

  // --- Sequence numbers ----------------------------------------------------------------

  /** Acknowledged <= expected <= next, between two synchronised sides, on the 32-bit fields. */
  predicate Sandwiched(x: Tcb, y: Tcb) {
    y.irs == x.iss && (y.rcvNxt - x.sndUna) % M32 <= (x.sndNxt - x.sndUna) % M32
  }

  lemma SequenceSandwich(c: Config, acts: seq<Action>)
    requires SmallSys(Reach(c, acts))
    requires Synced(Reach(c, acts).a.tcb) && Synced(Reach(c, acts).b.tcb)
    ensures var s := Reach(c, acts); Sandwiched(s.a.tcb, s.b.tcb) && Sandwiched(s.b.tcb, s.a.tcb)
  {
    var u := BehindBoth(c, acts);
    SandwichHalf(u.a, u.b, u.ab.sent, u.ba.sent);
    SandwichHalf(u.b, u.a, u.ba.sent, u.ab.sent);
  }

  lemma SandwichHalf(x: Node, y: Node, xy: set<TcpSegment>, yx: set<TcpSegment>)
    requires Core(x, y, xy, yx) && Small(x) && Synced(y.tcb) && Synced(x.tcb)
    ensures Sandwiched(WrapTcb(x.tcb), WrapTcb(y.tcb))
  {
    SandwichExact(x, y, xy, yx);
    WrappedNumbers(x.tcb);
    WrappedNumbers(y.tcb);
    SandwichMod(x.tcb.sndUna, y.tcb.rcvNxt, x.tcb.sndNxt);
    hide Core, Small, Synced, W, WrapTcb;
  }

  lemma WrappedNumbers(t: Tcb)
    ensures var w := WrapTcb(t);
            w.sndUna == W(t.sndUna) && w.sndNxt == W(t.sndNxt) && w.rcvNxt == W(t.rcvNxt) && w.iss == W(t.iss) && w.irs == W(t.irs)
  {
    hide W, WrapSegs;
  }

  lemma SandwichMod(una: nat, rcv: nat, next: nat)
    requires una <= rcv <= next < una + M32
    ensures (W(rcv) - W(una)) % M32 <= (W(next) - W(una)) % M32
  {
    ModOffset(rcv, una);
    ModOffset(next, una);
  }

  lemma SandwichExact(x: Node, y: Node, xy: set<TcpSegment>, yx: set<TcpSegment>)
    requires Core(x, y, xy, yx) && Small(x) && Synced(y.tcb) && Synced(x.tcb)
    ensures x.tcb.sndUna <= y.tcb.rcvNxt <= x.tcb.sndNxt < x.tcb.sndUna + M32 && y.tcb.irs == x.tcb.iss
  {
    CoreNear(x, y, xy, yx);
    assert StreamOk(x, y);
  }

  /** A side is established only after its peer has latched its ISS. */
  lemma EstablishedMeansLatched(c: Config, acts: seq<Action>)
    requires SmallSys(Reach(c, acts))
    ensures var s := Reach(c, acts);
            && (s.a.tcb.state == ESTABLISHED ==> s.b.tcb.irs == s.a.tcb.iss && s.b.tcb.state !in {LISTEN, SYN_SENT})
            && (s.b.tcb.state == ESTABLISHED ==> s.a.tcb.irs == s.b.tcb.iss && s.a.tcb.state !in {LISTEN, SYN_SENT})
  {
    var u := BehindBoth(c, acts);
    LatchedHalf(u.a, u.b, u.ab.sent, u.ba.sent);
    LatchedHalf(u.b, u.a, u.ba.sent, u.ab.sent);
    hide Inv;
  }

  lemma LatchedHalf(x: Node, y: Node, xy: set<TcpSegment>, yx: set<TcpSegment>)
    requires Core(x, y, xy, yx)
    ensures x.tcb.state == ESTABLISHED ==> y.tcb.irs == x.tcb.iss && y.tcb.state !in {LISTEN, SYN_SENT}
  {
  }

  // --- The RST of a listener -------------------------------------------------------------

  /** In every reachable state a listener has no peer, and no RST of either side was ever sent. */
  lemma NoRstSent(c: Config, acts: seq<Action>, side: Side)
    requires SmallSys(Reach(c, acts))
    ensures var s := Reach(c, acts).From(side);
            && (s.a.tcb.state == LISTEN ==> s.a.tcb.remoteIp == None) && s.a.tcb.outbox == []
            && forall seg :: seg in s.ab.sent ==> !seg.flags.rst
  {
    var u := BehindBoth(c, acts);
    var v := u.From(side);
    NoRstHalf(v.a, v.b, v.ab.sent, v.ba.sent);
    hide Core;
    forall seg | seg in WrapChannel(v.ab).sent ensures !seg.flags.rst {
      var q :| q in v.ab.sent && WrapSeg(q) == seg;
    }
  }

  lemma NoRstHalf(x: Node, y: Node, xy: set<TcpSegment>, yx: set<TcpSegment>)
    requires Core(x, y, xy, yx)
    ensures x.tcb.state == LISTEN ==> x.tcb.remoteIp == None
    ensures forall seg :: seg in xy ==> !seg.flags.rst
  {
    forall seg | seg in xy ensures !seg.flags.rst { assert seg in xy + Pending(x) && PktOk(seg, x); }
    hide SenderOk, ReceiverOk;
  }

  /** A listener answers an ACK by queueing a RST; the flush drops it, so that neither the
      connection nor the wire has changed. */
  lemma ListenerRstDropped(c: Config, acts: seq<Action>, side: Side, seg: TcpSegment, srcIp: Ip, iss: nat)
    requires SmallSys(Reach(c, acts)) && seg.flags.ack && !seg.flags.rst
    requires Reach(c, acts).From(side).a.tcb.state == LISTEN
    ensures var s := Reach(c, acts).From(side);
            var queued := OnSegment(Mod32, s.a.tcb, seg, srcIp, iss).0.outbox;
            |queued| == 1 && queued[0].flags.rst && Receive(Mod32, s.a, seg, srcIp, iss, s.ab) == (s.a, s.ab)
  {
    NoRstSent(c, acts, side);
    hide Reach;
    var s := Reach(c, acts).From(side);
    RstQueued(s.a.tcb, seg, srcIp, iss);
    hide OnSegment;
    assert s.a.tcb.(outbox := []) == s.a.tcb;
  }

  lemma RstQueued(t: Tcb, seg: TcpSegment, srcIp: Ip, iss: nat)
    requires t.state == LISTEN && seg.flags.ack && !seg.flags.rst && t.outbox == []
    ensures var t' := OnSegment(Mod32, t, seg, srcIp, iss).0;
            t' == t.(outbox := t'.outbox) && |t'.outbox| == 1 && t'.outbox[0].flags.rst
  {
    hide OnSynSent, OnSynReceived, OnEstablished;
  }

  // --- The sender's books ---------------------------------------------------------------

  /** Where in the written stream a 32-bit sequence number points. */
  function StreamIndex(t: Tcb, seqNo: nat): int { (seqNo - t.iss - 1) % M32 }

  /** Every payload put on the wire, retransmissions included, is the slice of the
      written stream that its sequence number names. */
  ghost predicate WireMatchesStream(x: Node, sent: set<TcpSegment>) {
    forall seg :: seg in sent && seg.payload != [] ==>
      var k := StreamIndex(x.tcb, seg.seqNo);
      k + |seg.payload| <= Emitted(x) <= |x.written| && seg.payload == x.written[k..k + |seg.payload|]
  }

  /** Written is emitted plus unsent; in ESTABLISHED something is outstanding exactly when
      the two send numbers differ, and then it is the last block emitted. */
  predicate BooksBalance(x: Node) {
    var t := x.tcb;
    && 0 <= Emitted(x) <= |x.written| && x.written[Emitted(x)..] == t.sendBuf
    && (t.state == ESTABLISHED ==>
          && (t.haveUnacked <==> t.sndUna != t.sndNxt)
          && (t.haveUnacked ==> (t.unackedSeq + |t.unackedData|) % M32 == t.sndNxt)
          && (!t.haveUnacked ==> t.sendBuf == []))
  }

  lemma SenderConservation(c: Config, acts: seq<Action>)
    requires SmallSys(Reach(c, acts))
    ensures var s := Reach(c, acts);
            && BooksBalance(s.a) && WireMatchesStream(s.a, s.ab.sent)
            && BooksBalance(s.b) && WireMatchesStream(s.b, s.ba.sent)
  {
    var u := BehindBoth(c, acts);
    assert u.ab.sent + Pending(u.a) == u.ab.sent;
    assert u.ba.sent + Pending(u.b) == u.ba.sent;
    BooksHalf(u.a, u.b, u.ab.sent, u.ba.sent);
    BooksHalf(u.b, u.a, u.ba.sent, u.ab.sent);
    hide Inv, WireMatchesStream, BooksBalance;
  }

  lemma BooksHalf(x: Node, y: Node, xy: set<TcpSegment>, yx: set<TcpSegment>)
    requires Core(x, y, xy, yx) && Settled(x.tcb) && Small(x)
    ensures BooksBalance(WrapNode(x)) && WireMatchesStream(WrapNode(x), set s | s in xy :: WrapSeg(s))
  {
    CoreNear(x, y, xy, yx);
    assert forall seg :: seg in xy ==> seg in xy + Pending(x) && PktOk(seg, x);
    hide Half, PktOk, SenderOk, ReceiverOk, StateOk, Settled, Near, WireMatchesStream, BooksBalance;
    BooksAlone(x);
    WireHalf(x, xy);
  }

  lemma BooksAlone(x: Node)
    requires Local(x) && Settled(x.tcb) && Near(x.tcb)
    ensures BooksBalance(WrapNode(x))
  {
    NormEqual(x.tcb.sndUna, x.tcb.sndNxt);
    if x.tcb.haveUnacked { NormStep(x.tcb.unackedSeq, |x.tcb.unackedData|); }
    WrapBuffers(x);
    WrappedNumbers(x.tcb);
    Fields(x.tcb);
    hide ReceiverOk, WrapTcb, W;
  }

  lemma Fields(t: Tcb)
    ensures var w := WrapTcb(t);
            w.unackedSeq == W(t.unackedSeq) && w.unackedData == t.unackedData && w.sndNxt == W(t.sndNxt) && w.haveUnacked == t.haveUnacked
  {
    hide W, WrapSegs;
  }

  lemma WireHalf(x: Node, xy: set<TcpSegment>)
    requires Small(x) && SenderOk(x)
    requires forall seg :: seg in xy ==> PktOk(seg, x)
    ensures WireMatchesStream(WrapNode(x), set s | s in xy :: WrapSeg(s))
  {
    WrapBuffers(x);
    forall seg | seg in (set s | s in xy :: WrapSeg(s)) && seg.payload != []
      ensures var k := StreamIndex(WrapTcb(x.tcb), seg.seqNo);
              k + |seg.payload| <= Emitted(x) <= |x.written| && seg.payload == x.written[k..k + |seg.payload|]
    {
      var s :| s in xy && WrapSeg(s) == seg;
      assert PktOk(s, x) && SliceOk(s, x);
      IndexExact(x.tcb, s.seqNo);
    }
    hide SenderOk, WrapTcb;
  }

  lemma IndexExact(t: Tcb, seqNo: nat)
    requires t.iss < seqNo < t.iss + M32
    ensures StreamIndex(WrapTcb(t), W(seqNo)) == seqNo - t.iss - 1
  {
    ModOffset(seqNo, t.iss);
  }

  // --- The FIN ---------------------------------------------------------------------------

  predicate AfterFin(t: Tcb) {
    t.finSent && t.state in {CLOSED, FIN_WAIT_1, FIN_WAIT_2, CLOSING, LAST_ACK, TIME_WAIT}
  }

  /** snd_nxt has not moved, and the FIN is still out. */
  predicate Frozen(t: Tcb, t': Tcb) { AfterFin(t') && t'.sndNxt == t.sndNxt }

  lemma EstablishedFrozen(m: Arith, t: Tcb, seg: TcpSegment)
    requires AfterFin(t) && Windowed(t)
    ensures Frozen(t, OnEstablished(m, t, seg).0)
  {
    TakeAckFrozen(m, t, seg);
    TakeDataFrozen(m, TakeAck(m, t, seg), seg);
    TakeFinFrozen(m, TakeData(m, TakeAck(m, t, seg), seg), seg);
    hide TakeAck, TakeData, TakeFin;
  }

  lemma TakeAckFrozen(m: Arith, t: Tcb, seg: TcpSegment)
    requires AfterFin(t)
    ensures Frozen(t, TakeAck(m, t, seg))
  {
  }

  lemma TakeDataFrozen(m: Arith, t: Tcb, seg: TcpSegment)
    requires AfterFin(t)
    ensures Frozen(t, TakeData(m, t, seg))
  {
  }

  lemma TakeFinFrozen(m: Arith, t: Tcb, seg: TcpSegment)
    requires AfterFin(t)
    ensures Frozen(t, TakeFin(m, t, seg))
  {
    PeerFinFrozen(m, t);
    hide HandlePeerFin, FlushSend;
    var t1 := if seg.flags.fin && seg.seqNo + |seg.payload| == t.rcvNxt then HandlePeerFin(m, t) else t;
    TransitionsFrozen(t1);
    hide CloseTransitions, AfterFin;
    assert TakeFin(m, t, seg) == CloseTransitions(t1);
  }

  lemma TransitionsFrozen(t: Tcb)
    requires AfterFin(t)
    ensures Frozen(t, CloseTransitions(t)) && CloseTransitions(t).state != ESTABLISHED
  {
  }

  lemma PeerFinFrozen(m: Arith, t: Tcb)
    requires AfterFin(t)
    ensures Frozen(t, HandlePeerFin(m, t))
  {
  }

  lemma SegmentFrozen(m: Arith, t: Tcb, seg: TcpSegment, srcIp: Ip, iss: nat)
    requires AfterFin(t)
    ensures Frozen(t, OnSegment(m, t, seg, srcIp, iss).0)
  {
    if Windowed(t) { EstablishedFrozen(m, t, seg); }
    hide OnListen, OnSynSent, OnSynReceived, OnEstablished;
  }

  lemma ActFrozen(m: Arith, n: Node, peer: Node, out: Channel, inp: Channel, act: Action)
    requires AfterFin(n.tcb) && n.started
    ensures var n' := Act(m, n, peer, out, inp, act).0; Frozen(n.tcb, n'.tcb) && n'.started
  {
    hide Receive, Flush, AfterFin, Foreign, Without;
    match act
    case Deliver(_, i, iss) =>
      if i < |inp.flight| { ReceiveFrozen(m, n, inp.flight[i], peer.tcb.localIp, iss, out); }
    case Redeliver(_, seg, iss) => ReceiveFrozen(m, n, seg, peer.tcb.localIp, iss, out);
    case Inject(_, seg, srcIp) => ReceiveFrozen(m, n, seg, srcIp, 0, out);
    case DoOpenActive(_, _) =>
    case DoOpenListen(_) =>
    case Drop(_, _) =>
    case _ => UserActFrozen(m, n, peer, out, inp, act);
  }

  lemma ReceiveFrozen(m: Arith, n: Node, seg: TcpSegment, srcIp: Ip, iss: nat, out: Channel)
    requires AfterFin(n.tcb)
    ensures var n' := Receive(m, n, seg, srcIp, iss, out).0; Frozen(n.tcb, n'.tcb) && n'.started == n.started
  {
    SegmentFrozen(m, n.tcb, seg, srcIp, iss);
    hide OnSegment;
  }

  lemma UserActFrozen(m: Arith, n: Node, peer: Node, out: Channel, inp: Channel, act: Action)
    requires AfterFin(n.tcb) && (act.DoWrite? || act.DoClose? || act.DoPopRead? || act.DoRetransmit?)
    ensures var n' := Act(m, n, peer, out, inp, act).0; Frozen(n.tcb, n'.tcb) && n'.started == n.started
  {
    UserFrozen(m, n.tcb);
    hide Receive, OnSegment, OpenActive, OpenListen, Write, Close, Retransmit;
  }

  // A side whose FIN is out can neither open, write nor send.
  lemma UserFrozen(m: Arith, t: Tcb)
    requires AfterFin(t)
    ensures Frozen(t, Close(m, t)) && Frozen(t, Retransmit(m, t))
    ensures forall data :: Write(m, t, data).Ok? ==> Frozen(t, Write(m, t, data).value)
  {
    hide FlushSend;
  }

  /** Once the FIN is out nothing that happens later moves snd_nxt. */
  lemma {:induction false} FinFreezesSndNxt(c: Config, acts: seq<Action>, more: seq<Action>, side: Side)
    requires SmallSys(Reach(c, acts)) && Reach(c, acts).From(side).a.tcb.finSent
    ensures var n := Reach(c, acts + more).From(side).a;
            Frozen(Reach(c, acts).From(side).a.tcb, n.tcb) && n.started
  {
    if more == [] {
      assert acts + more == acts;
      FinIsOut(c, acts, side);
    } else {
      var init, last := more[..|more| - 1], more[|more| - 1];
      FinFreezesSndNxt(c, acts, init, side);
      ReachMore(c, acts, more);
      hide Frozen, AfterFin, Reach;
      StepFrozen(Reach(c, acts + init), last, side);
      FrozenOn(Reach(c, acts).From(side).a.tcb, Reach(c, acts + init).From(side).a.tcb, Reach(c, acts + more).From(side).a.tcb);
      hide Step;
    }
  }

  lemma FrozenOn(t: Tcb, t1: Tcb, t2: Tcb)
    requires Frozen(t, t1) && (AfterFin(t1) ==> Frozen(t1, t2))
    ensures Frozen(t, t2)
  {
  }

  lemma FinIsOut(c: Config, acts: seq<Action>, side: Side)
    requires SmallSys(Reach(c, acts)) && Reach(c, acts).From(side).a.tcb.finSent
    ensures var n := Reach(c, acts).From(side).a; AfterFin(n.tcb) && n.started
  {
    var u := BehindBoth(c, acts);
    assert StateOk(u.a) && StateOk(u.b);
    hide Half, SenderOk, ReceiverOk;
  }

  lemma StepFrozen(s: Sys, act: Action, side: Side)
    requires AfterFin(s.From(side).a.tcb) && s.From(side).a.started
    ensures var n := Step(Mod32, s, act).From(side).a; Frozen(s.From(side).a.tcb, n.tcb) && n.started
  {
    var r := s.From(side);
    ActFrozen(Mod32, r.a, r.b, r.ab, r.ba, act);
    hide Act;
  }

  /** A FIN consumed in this step. */
  predicate TakesFin(before: Node, after: Node) { !before.tcb.finReceived && after.tcb.finReceived }

  /** "FIN received means everything received" fails when the FIN overtakes the first
      block and ends the handshake.  At the moment the FIN is taken the receiver has
      everything emitted if and only if the FIN's number was the expected one. */
  lemma FinCompleteIff(c: Config, acts: seq<Action>, side: Side, seg: TcpSegment, iss: nat)
    requires SmallSys(Reach(c, acts)) && seg in Reach(c, acts).From(side).ba.sent && iss < M32
    requires var s := Reach(c, acts).From(side);
             TakesFin(s.a, Step(Mod32, s, Redeliver(A, seg, iss)).a)
    ensures var s := Reach(c, acts).From(side);
            var s' := Step(Mod32, s, Redeliver(A, seg, iss));
            |s'.a.Received()| == Emitted(s'.b) <==> seg.seqNo == s.a.tcb.rcvNxt
  {
    var u := BehindBoth(c, acts);
    var v := u.From(side);
    hide Step, TakesFin;
    var q := SentBehind(u, side, seg);
    RedeliverBehind(v, q, iss);
    FinReceived(v.a, v.b, v.ab, v.ba, q, iss);
    NormEqual(q.seqNo, v.a.tcb.rcvNxt);
    hide Receive, Core, WrapChannel, Inv;
  }

  // The unbounded segment behind a segment of the 32-bit run.
  lemma SentBehind(u: Sys, side: Side, seg: TcpSegment) returns (q: TcpSegment)
    requires seg in WrapSys(u).From(side).ba.sent
    ensures q in u.From(side).ba.sent && WrapSeg(q) == seg
  {
    q :| q in u.From(side).ba.sent && WrapSeg(q) == seg;
  }

  lemma RedeliverBehind(v: Sys, q: TcpSegment, iss: nat)
    requires Inv(v) && SmallSys(v) && q in v.ba.sent && iss < M32
    ensures var n' := Receive(Unbounded, v.a, q, v.b.tcb.localIp, iss, v.ab).0;
            var s' := Step(Mod32, WrapSys(v), Redeliver(A, WrapSeg(q), iss));
            && s'.a == WrapNode(n') && s'.b == WrapNode(v.b)
            && s'.a.Received() == n'.Received() && Emitted(s'.b) == Emitted(v.b)
            && (TakesFin(WrapSys(v).a, s'.a) <==> TakesFin(v.a, n'))
  {
    RedeliverStep(v, q, iss);
    WrapBuffers(v.a);
    WrapBuffers(v.b);
    WrapBuffers(Receive(Unbounded, v.a, q, v.b.tcb.localIp, iss, v.ab).0);
    hide Step, Receive, Inv, WrapChannel, WrapNode;
  }

  lemma RedeliverStep(v: Sys, q: TcpSegment, iss: nat)
    requires Inv(v) && SmallSys(v) && q in v.ba.sent && iss < M32
    ensures var n' := Receive(Unbounded, v.a, q, v.b.tcb.localIp, iss, v.ab).0;
            var s' := Step(Mod32, WrapSys(v), Redeliver(A, WrapSeg(q), iss));
            s'.a == WrapNode(n') && s'.b == WrapNode(v.b)
  {
    RedeliverAct(v.a, v.b, v.ab, v.ba, q, iss);
    hide Act, Inv, Receive, WrapChannel, WrapNode;
  }

  lemma RedeliverAct(n: Node, peer: Node, out: Channel, inp: Channel, q: TcpSegment, iss: nat)
    requires InvFor(n, peer, out, inp) && Small(n) && Small(peer) && q in inp.sent && iss < M32
    ensures var (n', out') := Receive(Unbounded, n, q, peer.tcb.localIp, iss, out);
            Act(Mod32, WrapNode(n), WrapNode(peer), WrapChannel(out), WrapChannel(inp), Redeliver(A, WrapSeg(q), iss))
            == (WrapNode(n'), WrapChannel(out'), WrapChannel(inp))
  {
    assert WrapNode(peer).tcb.localIp == peer.tcb.localIp;
    hide InvFor, Receive, WrapChannel, WrapNode;
    WrapReceive(n, peer, out, inp, q, iss);
    WrapMember(inp, q);
  }

  // A segment that was sent is among the wrapped ones.
  lemma WrapMember(c: Channel, q: TcpSegment)
    ensures q in c.sent ==> WrapSeg(q) in WrapChannel(c).sent
  {
  }

  lemma FinReceived(n: Node, peer: Node, out: Channel, inp: Channel, seg: TcpSegment, iss: nat)
    requires InvFor(n, peer, out, inp) && Small(peer) && seg in inp.sent
    requires TakesFin(n, Receive(Unbounded, n, seg, peer.tcb.localIp, iss, out).0)
    ensures var n' := Receive(Unbounded, n, seg, peer.tcb.localIp, iss, out).0;
            |n'.Received()| == Emitted(peer) <==> seg.seqNo == n.tcb.rcvNxt
    ensures -M32 < seg.seqNo - n.tcb.rcvNxt < M32
  {
    FinTaken(n, peer, out.sent, inp.sent, seg, iss);
    hide OnSegment, Core;
  }

  lemma FinTaken(x: Node, y: Node, xy: set<TcpSegment>, yx: set<TcpSegment>, seg: TcpSegment, iss: nat)
    requires Core(x, y, xy, yx) && seg in yx && Small(y) && !x.tcb.finReceived
    requires OnSegment(Unbounded, x.tcb, seg, y.tcb.localIp, iss).0.finReceived
    ensures OnSegment(Unbounded, x.tcb, seg, y.tcb.localIp, iss).0.readBuf == x.tcb.readBuf
    ensures |x.Received()| == Emitted(y) <==> seg.seqNo == x.tcb.rcvNxt
    ensures -M32 < seg.seqNo - x.tcb.rcvNxt < M32
  {
    assert PktOk(seg, y);
    FromPeer(x, y, xy, yx, seg);
    FinCause(x.tcb, seg, y.tcb.localIp, iss);
    assert Latched(x.tcb) && StreamOk(y, x);
    hide OnSegment;
  }

  /** The only ways finReceived is ever set. */
  lemma FinCause(t: Tcb, seg: TcpSegment, srcIp: Ip, iss: nat)
    requires !t.finReceived && !seg.flags.rst && (seg.flags.fin ==> seg.payload == [])
    requires OnSegment(Unbounded, t, seg, srcIp, iss).0.finReceived
    ensures seg.flags.fin && OnSegment(Unbounded, t, seg, srcIp, iss).0.readBuf == t.readBuf
    ensures t.state == SYN_RECEIVED || (Windowed(t) && seg.seqNo == t.rcvNxt)
  {
    FlushFrame(t, seg, srcIp, iss);
    PureAckFrame(t);
    hide EmitPureAck, HandleRst, OnListen, OnSynSent, OnSynReceived, OnEstablished;
    match t.state
    case SYN_RECEIVED => FinCauseHandshake(t, seg);
    case CLOSED =>
    case LISTEN =>
    case SYN_SENT =>
    case TIME_WAIT =>
    case _ => FinCauseWindowed(t, seg);
  }

  lemma PureAckFrame(t: Tcb)
    ensures EmitPureAck(Unbounded, t).finReceived == t.finReceived && EmitPureAck(Unbounded, t).readBuf == t.readBuf
  {
  }

  lemma FlushFrame(t: Tcb, seg: TcpSegment, srcIp: Ip, iss: nat)
    requires !t.finReceived
    ensures !OnListen(Unbounded, t, seg, srcIp, iss).0.finReceived && !OnSynSent(Unbounded, t, seg).0.finReceived
  {
  }

  lemma FinCauseHandshake(t: Tcb, seg: TcpSegment)
    requires !t.finReceived && (seg.flags.fin ==> seg.payload == [])
    requires OnSynReceived(Unbounded, t, seg).0.finReceived
    ensures seg.flags.fin && OnSynReceived(Unbounded, t, seg).0.readBuf == t.readBuf
  {
  }

  lemma FinCauseWindowed(t: Tcb, seg: TcpSegment)
    requires !t.finReceived && (seg.flags.fin ==> seg.payload == [])
    requires OnEstablished(Unbounded, t, seg).0.finReceived
    ensures seg.flags.fin && seg.seqNo == t.rcvNxt && OnEstablished(Unbounded, t, seg).0.readBuf == t.readBuf
  {
    BeforeFin(t, seg);
    FinCauseLast(TakeData(Unbounded, TakeAck(Unbounded, t, seg), seg), seg);
    hide TakeAck, TakeData, TakeFin;
  }

  lemma BeforeFin(t: Tcb, seg: TcpSegment)
    ensures var t2 := TakeData(Unbounded, TakeAck(Unbounded, t, seg), seg);
            t2.finReceived == t.finReceived && (seg.payload == [] ==> t2.readBuf == t.readBuf && t2.rcvNxt == t.rcvNxt)
  {
  }

  lemma FinCauseLast(t: Tcb, seg: TcpSegment)
    requires !t.finReceived && (seg.flags.fin ==> seg.payload == [])
    requires TakeFin(Unbounded, t, seg).finReceived
    ensures seg.flags.fin && seg.seqNo == t.rcvNxt && TakeFin(Unbounded, t, seg).readBuf == t.readBuf
  {
    var t1 := if seg.flags.fin && seg.seqNo + |seg.payload| == t.rcvNxt then HandlePeerFin(Unbounded, t) else t;
    assert t1.readBuf == t.readBuf && (t1.finReceived ==> seg.flags.fin && seg.seqNo == t.rcvNxt);
    hide HandlePeerFin;
    assert CloseTransitions(t1) == t1.(state := CloseTransitions(t1).state);
    hide CloseTransitions;
    FlushSendFrame(CloseTransitions(t1));
    hide FlushSend;
  }

  lemma FlushSendFrame(t: Tcb)
    ensures var t' := FlushSend(Unbounded, t); t'.finReceived == t.finReceived && t'.readBuf == t.readBuf
  {
  }
}
