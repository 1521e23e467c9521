/** Loss-free runs (unbounded machine): whatever is still needed is in flight. */
module TcpLossFree {
  import opened Bytes
  import opened SeqArith
  import opened Segment
  import opened TcpMachine
  import opened TcpNetwork
  import opened TcpInvariant
  import opened TcpSteps
  import opened TcpSafety
  import opened TcpRuns

  ghost predicate HasBareSyn(f: seq<TcpSegment>) { exists s :: s in f && s.flags.syn && !s.flags.ack }
  ghost predicate HasSynAck(f: seq<TcpSegment>) { exists s :: s in f && s.flags.syn && s.flags.ack }
  ghost predicate HasAck(f: seq<TcpSegment>, n: nat) { exists s :: s in f && s.flags.ack && s.ackNo == n }
  ghost predicate HasPureAck(f: seq<TcpSegment>, n: nat) {
    exists s :: s in f && s.flags.ack && s.ackNo == n && s.SegmentLength() == 0
  }
  ghost predicate HasBlock(f: seq<TcpSegment>, t: Tcb) { exists s :: s in f && IsBlock(s, t) }

  predicate IsBlock(s: TcpSegment, t: Tcb) { s.seqNo == t.unackedSeq && s.payload == t.unackedData }

  // --- What taking one segment does ----------------------------------------------

  /** t' is t after a segment without SYN-to-latch or FIN: what it took is acknowledged
      at once, and a block it begins to send is on the wire. */
  ghost predicate Effect(t: Tcb, seg: TcpSegment, t': Tcb) {
    && t'.rcvNxt == t.rcvNxt + (if seg.seqNo == t.rcvNxt then |seg.payload| else 0)
    && (t'.rcvNxt != t.rcvNxt ==> HasPureAck(t'.outbox, t'.rcvNxt))
    && OutOk(t, t')
    && (SameBlock(t, t') ==> !ClearsBlock(t, seg))
  }

  /** The outbox holds no data but the outstanding block, which is the old one or new. */
  ghost predicate OutOk(t: Tcb, t': Tcb) {
    t'.haveUnacked ==> (SameBlock(t, t') || NewBlock(t, t')) && forall s :: s in t'.outbox && s.payload != [] ==> IsBlock(s, t')
  }

  ghost predicate NewBlock(t: Tcb, t': Tcb) { t'.unackedSeq == t.sndNxt && HasBlock(t'.outbox, t') }

  predicate NoData(f: seq<TcpSegment>) { forall s :: s in f ==> s.payload == [] }

  predicate SameBlock(t: Tcb, t': Tcb) {
    t.haveUnacked && t'.haveUnacked && t'.unackedSeq == t.unackedSeq && t'.unackedData == t.unackedData
  }

  /** The acknowledgment the outstanding block is waiting for. */
  predicate ClearsBlock(t: Tcb, seg: TcpSegment) {
    seg.flags.ack && seg.SegmentLength() == 0 && seg.ackNo == t.sndNxt && t.sndUna < t.sndNxt == t.unackedSeq + |t.unackedData|
  }

  lemma FlushSendEffect(t: Tcb)
    ensures var t' := FlushSend(Unbounded, t);
            && t.outbox <= t'.outbox && t'.rcvNxt == t.rcvNxt && t'.state == t.state
            && (t'.haveUnacked ==> t' == t || (!t.haveUnacked && NewBlock(t, t')))
            && (forall s :: s in t'.outbox && s.payload != [] ==> s in t.outbox || IsBlock(s, t'))
  {
    if t.sendBuf != [] && !t.haveUnacked {
      var t' := FlushSend(Unbounded, t);
      var n := if |t.sendBuf| <= t.peerMss then |t.sendBuf| else t.peerMss;
      var seg := Plain(Unbounded, t, t.sndNxt, ACK_PSH, [], t.sendBuf[..n]);
      assert t'.outbox == t.outbox + [seg];
      if n > 0 { assert IsBlock(seg, t'); }
      assert seg in t'.outbox;
    }
  }

  lemma TakePayloadEffect(t: Tcb, seg: TcpSegment)
    ensures var t' := TakePayload(Unbounded, t, seg);
            && t'.rcvNxt == t.rcvNxt + |seg.payload| && HasPureAck(t'.outbox, t'.rcvNxt) && t'.haveUnacked == t.haveUnacked
            && t'.unackedSeq == t.unackedSeq && t'.unackedData == t.unackedData && t'.state == t.state
            && t'.sndNxt == t.sndNxt && t'.finReceived == t.finReceived && (NoData(t.outbox) ==> NoData(t'.outbox))
  {
    var t' := TakePayload(Unbounded, t, seg);
    var ack := t'.outbox[|t'.outbox| - 1];
    assert ack in t'.outbox && ack.flags.ack && ack.ackNo == t'.rcvNxt && ack.SegmentLength() == 0;
  }

  /** What the invariant says about an established side in a run without closes. */
  predicate Ready(t: Tcb) {
    && t.outbox == [] && t.rcvWnd == 65535 && !t.finSent && !t.finReceived
    && (t.haveUnacked ==> t.unackedSeq < t.unackedSeq + |t.unackedData| == t.sndNxt)
  }

  lemma TakeAckEffect(t: Tcb, seg: TcpSegment)
    requires Ready(t)
    ensures var t1 := TakeAck(Unbounded, t, seg);
            && t1 == t.(sndUna := t1.sndUna, sndWnd := t1.sndWnd, unackedData := t1.unackedData, haveUnacked := t1.haveUnacked)
            && (t1.haveUnacked ==> SameBlock(t, t1) && !ClearsBlock(t, seg))
  {
  }

  lemma TakeDataEffect(t: Tcb, seg: TcpSegment)
    requires Ready(t)
    ensures var t1 := TakeData(Unbounded, t, seg);
            && t1 == t.(rcvNxt := t1.rcvNxt, readBuf := t1.readBuf, outbox := t1.outbox)
            && t1.rcvNxt == t.rcvNxt + (if seg.seqNo == t.rcvNxt then |seg.payload| else 0)
            && (t1.rcvNxt != t.rcvNxt ==> HasPureAck(t1.outbox, t1.rcvNxt)) && NoData(t1.outbox)
  {
    TakePayloadEffect(t, seg);
  }

  lemma EstablishedEffect(t: Tcb, seg: TcpSegment)
    requires Ready(t) && t.state == ESTABLISHED && !seg.flags.fin && (seg.flags.syn ==> seg.payload == [])
    ensures var t' := OnEstablished(Unbounded, t, seg).0; t'.state == ESTABLISHED && Effect(t, seg, t')
  {
    hide TakeAck, TakeData, TakeFin, Effect;
    if InWindowU(t, seg) {
      InWindowEffect(t, seg);
    } else {
      AckedOnly(t, seg);
    }
  }

  // A segment outside the window is only acknowledged.
  lemma AckedOnly(t: Tcb, seg: TcpSegment)
    requires Ready(t) && t.state == ESTABLISHED && !InWindowU(t, seg)
    ensures var t' := EmitPureAck(Unbounded, t); t'.state == ESTABLISHED && Effect(t, seg, t')
  {
    assert seg.seqNo == t.rcvNxt ==> seg.payload == [];
  }

  lemma TakeFinIsFlush(t: Tcb, seg: TcpSegment)
    requires t.state == ESTABLISHED && !seg.flags.fin
    ensures TakeFin(Unbounded, t, seg) == FlushSend(Unbounded, t)
  {
  }

  lemma InWindowEffect(t: Tcb, seg: TcpSegment)
    requires Ready(t) && t.state == ESTABLISHED && !seg.flags.fin
    ensures var t' := TakeFin(Unbounded, TakeData(Unbounded, TakeAck(Unbounded, t, seg), seg), seg);
            t'.state == ESTABLISHED && Effect(t, seg, t')
  {
    var t1 := TakeAck(Unbounded, t, seg);
    TakeAckEffect(t, seg);
    hide TakeAck;
    TakeDataEffect(t1, seg);
    hide TakeData;
    var t2 := TakeData(Unbounded, t1, seg);
    FlushSendEffect(t2);
    TakeFinIsFlush(t2, seg);
    hide FlushSend, ClearsBlock, TakeFin, Effect;
    Combined(t, t1, t2, FlushSend(Unbounded, t2), seg);
  }

  lemma Combined(t: Tcb, t1: Tcb, t2: Tcb, t3: Tcb, seg: TcpSegment)
    requires t1 == t.(sndUna := t1.sndUna, sndWnd := t1.sndWnd, unackedData := t1.unackedData, haveUnacked := t1.haveUnacked)
    requires t1.haveUnacked ==> SameBlock(t, t1) && !ClearsBlock(t, seg)
    requires t2 == t1.(rcvNxt := t2.rcvNxt, readBuf := t2.readBuf, outbox := t2.outbox) && NoData(t2.outbox)
    requires t2.rcvNxt == t.rcvNxt + (if seg.seqNo == t.rcvNxt then |seg.payload| else 0)
    requires t2.rcvNxt != t.rcvNxt ==> HasPureAck(t2.outbox, t2.rcvNxt)
    requires t2.outbox <= t3.outbox && t3.rcvNxt == t2.rcvNxt
    requires t3.haveUnacked ==> t3 == t2 || (!t2.haveUnacked && NewBlock(t2, t3))
    requires forall s :: s in t3.outbox && s.payload != [] ==> s in t2.outbox || IsBlock(s, t3)
    requires t.haveUnacked ==> t.unackedSeq < t.sndNxt
    ensures Effect(t, seg, t3)
  {
    PureAckStays(t2.outbox, t3.outbox, t2.rcvNxt);
    hide ClearsBlock, HasPureAck, HasBlock;
  }

  predicate InWindowU(t: Tcb, seg: TcpSegment) {
    seg.SegmentLength() == 0 || t.rcvNxt <= seg.seqNo < t.rcvNxt + 65535
  }

  lemma PureAckStays(f: seq<TcpSegment>, f': seq<TcpSegment>, n: nat)
    requires f <= f'
    ensures HasPureAck(f, n) ==> HasPureAck(f', n)
  {
  }

  /** The ACK that ends the handshake, with what rides on it. */
  lemma FirstDataEffect(t: Tcb, seg: TcpSegment)
    requires Ready(t) && t.state == ESTABLISHED && !t.haveUnacked && !seg.flags.fin
    requires seg.payload != [] ==> seg.seqNo == t.rcvNxt
    ensures var t' := TakeFirstData(Unbounded, t, seg);
            && t'.state == ESTABLISHED && t'.rcvNxt == t.rcvNxt + |seg.payload|
            && (t'.rcvNxt != t.rcvNxt ==> HasPureAck(t'.outbox, t'.rcvNxt))
            && OutOk(t, t')
  {
    var t1 := if seg.payload == [] then t else TakePayload(Unbounded, t, seg);
    TakePayloadEffect(t, seg);
    hide TakePayload;
    FlushSendEffect(t1);
    PureAckStays(t1.outbox, FlushSend(Unbounded, t1).outbox, t1.rcvNxt);
    hide FlushSend;
  }

  // --- The invariant of a loss-free run --------------------------------------------

  /** Every data segment sent from the outstanding block on is a copy of that block. */
  ghost predicate OneBlock(t: Tcb, sent: set<TcpSegment>) {
    t.haveUnacked ==> forall s :: s in sent && s.payload != [] && s.seqNo >= t.unackedSeq ==> IsBlock(s, t)
  }

  /** What x still needs, it is going to get: xf is in flight to y, yf is in flight to x. */
  ghost predicate Supplied(x: Node, y: Node, xf: seq<TcpSegment>, yf: seq<TcpSegment>) {
    OpenState(x) && SynSupplied(x.tcb, y.tcb, xf, yf) && BlockSupplied(x.tcb, y.tcb, xf, yf)
  }

  predicate OpenState(x: Node) {
    x.tcb.state in {CLOSED, LISTEN, SYN_SENT, SYN_RECEIVED, ESTABLISHED} && (x.started <==> x.tcb.state != CLOSED)
  }

  ghost predicate SynSupplied(t: Tcb, peer: Tcb, xf: seq<TcpSegment>, yf: seq<TcpSegment>) {
    && (t.state == SYN_SENT && !Latched(peer) ==> HasBareSyn(xf))
    && (t.state == SYN_SENT && Latched(peer) ==> HasSynAck(yf))
    && (t.state == SYN_RECEIVED && Latched(peer) ==> HasAck(yf, t.iss + 1))
  }

  ghost predicate BlockSupplied(t: Tcb, peer: Tcb, xf: seq<TcpSegment>, yf: seq<TcpSegment>) {
    t.haveUnacked ==> BlockUnderWay(t, peer, xf) || AckUnderWay(t, peer, yf)
  }

  ghost predicate BlockUnderWay(t: Tcb, peer: Tcb, xf: seq<TcpSegment>) {
    peer.rcvNxt == t.unackedSeq && HasBlock(xf, t)
  }

  ghost predicate AckUnderWay(t: Tcb, peer: Tcb, yf: seq<TcpSegment>) {
    peer.rcvNxt == t.sndNxt && HasPureAck(yf, t.sndNxt)
  }

  /** Everything in flight stays there, except possibly a copy of seg. */
  predicate Remains(f: seq<TcpSegment>, f': seq<TcpSegment>, seg: TcpSegment) {
    forall s :: s in f && s != seg ==> s in f'
  }

  ghost predicate Quiet(x: Node, y: Node, xy: set<TcpSegment>, yx: set<TcpSegment>,
                        xf: seq<TcpSegment>, yf: seq<TcpSegment>) {
    && Core(x, y, xy, yx) && Settled(x.tcb) && Settled(y.tcb) && x.tcb.outbox == [] && y.tcb.outbox == []
    && Supplied(x, y, xf, yf) && Supplied(y, x, yf, xf) && OneBlock(x.tcb, xy) && OneBlock(y.tcb, yx)
    && (forall s :: s in xf ==> s in xy) && (forall s :: s in yf ==> s in yx)
  }

  /** The goal of a step: x has become x', and its outbox has joined what is in flight. */
  ghost predicate Goal(x: Node, x': Node, y: Node, xf: seq<TcpSegment>, yf': seq<TcpSegment>) {
    Supplied(x', y, xf + x'.tcb.outbox, yf') && Supplied(y, x', yf', xf + x'.tcb.outbox) && OutOk(x.tcb, x'.tcb)
  }

  // What the two-sided invariant says when nobody has closed.
  lemma PeerOfSynSent(x: Node, y: Node, xy: set<TcpSegment>, yx: set<TcpSegment>, xf: seq<TcpSegment>, yf: seq<TcpSegment>)
    requires Quiet(x, y, xy, yx, xf, yf)
    ensures x.tcb.state == SYN_SENT && Latched(y.tcb) ==> y.tcb.state == SYN_RECEIVED
    ensures Latched(x.tcb) && !Latched(y.tcb) ==> y.tcb.state == SYN_SENT
    ensures x.tcb.state == LISTEN ==> !Latched(y.tcb)
    ensures x.tcb.haveUnacked ==> x.tcb.state == ESTABLISHED && Latched(y.tcb)
    ensures x.tcb.state == ESTABLISHED ==> Latched(y.tcb) && Ready(x.tcb)
    ensures !x.tcb.finSent && !x.tcb.finReceived
  {
  }

  lemma AcksInHandshake(x: Node, y: Node, xy: set<TcpSegment>, yx: set<TcpSegment>,
                        xf: seq<TcpSegment>, yf: seq<TcpSegment>, seg: TcpSegment)
    requires Quiet(x, y, xy, yx, xf, yf) && seg in yx
    ensures seg.flags.ack && x.tcb.state in {SYN_SENT, SYN_RECEIVED} ==> seg.ackNo == x.tcb.iss + 1
    ensures !seg.flags.fin && PktOk(seg, y)
  {
    assert PktOk(seg, y);
  }

  /** What Quiet says without quantifiers. */
  predicate Facts(x: Tcb, y: Tcb) {
    && (x.state == SYN_SENT && Latched(y) ==> y.state == SYN_RECEIVED)
    && (Latched(x) && !Latched(y) ==> y.state == SYN_SENT)
    && (x.state == LISTEN ==> !Latched(y))
    && (x.haveUnacked ==> x.state == ESTABLISHED && Latched(y))
    && (x.state == ESTABLISHED ==> Latched(y) && Ready(x))
    && (x.state in {SYN_RECEIVED, ESTABLISHED} ==> Latched(x)) && (x.state in {LISTEN, SYN_SENT} ==> !Latched(x))
    && !x.finSent && !x.finReceived && x.outbox == [] && (Latched(x) ==> x.irs == y.iss)
  }

  lemma QuietFacts(x: Node, y: Node, xy: set<TcpSegment>, yx: set<TcpSegment>, xf: seq<TcpSegment>, yf: seq<TcpSegment>)
    requires Quiet(x, y, xy, yx, xf, yf)
    ensures Facts(x.tcb, y.tcb) && Facts(y.tcb, x.tcb) && Core(x, y, xy, yx) && Local(x)
    ensures Supplied(x, y, xf, yf) && Supplied(y, x, yf, xf)
  {
    QuietFlip(x, y, xy, yx, xf, yf);
    PeerOfSynSent(x, y, xy, yx, xf, yf);
    PeerOfSynSent(y, x, yx, xy, yf, xf);
    LatchedIss(x, y, xy, yx);
    LatchedIss(y, x, yx, xy);
    hide Core, Supplied, OneBlock, Ready;
    CoreLocal(x, y, xy, yx);
  }

  lemma CoreLocal(x: Node, y: Node, xy: set<TcpSegment>, yx: set<TcpSegment>)
    requires Core(x, y, xy, yx)
    ensures Local(x)
  {
    hide Local, Half;
  }

  lemma LatchedIss(x: Node, y: Node, xy: set<TcpSegment>, yx: set<TcpSegment>)
    requires Core(x, y, xy, yx)
    ensures Latched(x.tcb) ==> x.tcb.irs == y.tcb.iss
    ensures x.tcb.state in {SYN_RECEIVED, ESTABLISHED} ==> Latched(x.tcb)
    ensures x.tcb.state in {LISTEN, SYN_SENT} ==> !Latched(x.tcb)
  {
  }

  /** What is true of any segment the peer ever sent. */
  lemma SegFacts(x: Node, y: Node, xy: set<TcpSegment>, yx: set<TcpSegment>,
                 xf: seq<TcpSegment>, yf: seq<TcpSegment>, seg: TcpSegment)
    requires Quiet(x, y, xy, yx, xf, yf) && seg in yx
    ensures seg.flags.ack && x.tcb.state in {SYN_SENT, SYN_RECEIVED} ==> seg.ackNo == x.tcb.iss + 1
    ensures !seg.flags.fin && !seg.flags.rst && (seg.flags.ack ==> Latched(y.tcb)) && (!seg.flags.ack ==> seg.flags.syn)
    ensures seg.flags.syn ==> seg.seqNo == y.tcb.iss && seg.payload == []
  {
    AcksInHandshake(x, y, xy, yx, xf, yf, seg);
    hide Quiet;
  }

  // --- One segment arrives ------------------------------------------------------------

  lemma ListenSupplied(x: Node, y: Node, xy: set<TcpSegment>, yx: set<TcpSegment>, xf: seq<TcpSegment>, yf: seq<TcpSegment>,
                       seg: TcpSegment, iss: nat, yf': seq<TcpSegment>)
    requires Quiet(x, y, xy, yx, xf, yf) && x.tcb.state == LISTEN && seg in yx && Remains(yf, yf', seg)
    ensures var t := OnListen(Unbounded, x.tcb, seg, y.tcb.localIp, iss).0;
            Goal(x, With(x, t), y, xf, yf')
  {
    QuietFacts(x, y, xy, yx, xf, yf);
    SegFacts(x, y, xy, yx, xf, yf, seg);
    ListenerSeesNoAck(x, y, xy, yx, seg);
    hide Quiet, Core, Remains, Ready;
    ListenReplies(x.tcb, seg, y.tcb.localIp, iss);
    hide OnListen, SynSupplied, BlockSupplied;
    LatchedPart(x.tcb, OnListen(Unbounded, x.tcb, seg, y.tcb.localIp, iss).0, y.tcb, xf, yf, yf');
  }

  lemma ListenReplies(t: Tcb, seg: TcpSegment, ip: Ip, iss: nat)
    requires t.state == LISTEN && t.outbox == [] && seg.flags.syn && !seg.flags.ack
    ensures var t' := OnListen(Unbounded, t, seg, ip, iss).0;
            && t'.state == SYN_RECEIVED && t'.irs == seg.seqNo && t'.rcvNxt == seg.seqNo + 1 && t'.haveUnacked == t.haveUnacked
            && |t'.outbox| == 1 && t'.outbox[0].flags == SYN_ACK && t'.outbox[0].ackNo == seg.seqNo + 1
  {
  }

  // A witness shows each clause.
  lemma Seen(f: seq<TcpSegment>, s: TcpSegment)
    requires s in f
    ensures s.flags.syn && !s.flags.ack ==> HasBareSyn(f)
    ensures s.flags.syn && s.flags.ack ==> HasSynAck(f)
    ensures s.flags.ack ==> HasAck(f, s.ackNo)
    ensures s.flags.ack && s.SegmentLength() == 0 ==> HasPureAck(f, s.ackNo)
  {
  }

  // What is in flight and is not the segment that arrived is still there.
  lemma StillSeen(f: seq<TcpSegment>, f': seq<TcpSegment>, seg: TcpSegment, n: nat, t: Tcb)
    requires Remains(f, f', seg)
    ensures HasBareSyn(f) && (!seg.flags.syn || seg.flags.ack) ==> HasBareSyn(f')
    ensures HasSynAck(f) && (!seg.flags.syn || !seg.flags.ack) ==> HasSynAck(f')
    ensures HasAck(f, n) && (!seg.flags.ack || seg.ackNo != n) ==> HasAck(f', n)
    ensures HasPureAck(f, n) && (!seg.flags.ack || seg.ackNo != n || seg.SegmentLength() != 0) ==> HasPureAck(f', n)
    ensures HasBlock(f, t) && !IsBlock(seg, t) ==> HasBlock(f', t)
  {
  }

  lemma Appended(f: seq<TcpSegment>, more: seq<TcpSegment>, n: nat, t: Tcb)
    ensures HasBareSyn(f) || HasBareSyn(more) ==> HasBareSyn(f + more)
    ensures HasSynAck(f) || HasSynAck(more) ==> HasSynAck(f + more)
    ensures HasAck(f, n) || HasAck(more, n) ==> HasAck(f + more, n)
    ensures HasPureAck(f, n) || HasPureAck(more, n) ==> HasPureAck(f + more, n)
    ensures HasBlock(f, t) || HasBlock(more, t) ==> HasBlock(f + more, t)
  {
  }

  /** x has latched the peer's bare SYN, from LISTEN or SYN_SENT, and answers with a SYN+ACK. */
  lemma LatchedPart(x: Tcb, t: Tcb, y: Tcb, xf: seq<TcpSegment>, yf: seq<TcpSegment>, yf': seq<TcpSegment>)
    requires Facts(y, x) && !Latched(x) && Latched(t) && t.state == SYN_RECEIVED && !t.haveUnacked
    requires Latched(y) ==> HasAck(yf', t.iss + 1)
    requires |t.outbox| == 1 && t.outbox[0].flags == SYN_ACK && t.outbox[0].ackNo == y.iss + 1
    ensures SynSupplied(t, y, xf + t.outbox, yf') && SynSupplied(y, t, yf', xf + t.outbox)
    ensures BlockSupplied(t, y, xf + t.outbox, yf') && BlockSupplied(y, t, yf', xf + t.outbox)
  {
    Seen(t.outbox, t.outbox[0]);
    Appended(xf, t.outbox, y.iss + 1, t);
    hide HasBareSyn, HasSynAck, HasAck, HasPureAck, HasBlock, Ready;
  }

  /** A bare SYN in SYN_SENT: simultaneous open. */
  lemma CrossingSynSupplied(x: Node, y: Node, xy: set<TcpSegment>, yx: set<TcpSegment>,
                            xf: seq<TcpSegment>, yf: seq<TcpSegment>,
                            seg: TcpSegment, yf': seq<TcpSegment>)
    requires Quiet(x, y, xy, yx, xf, yf) && x.tcb.state == SYN_SENT && seg in yx && Remains(yf, yf', seg)
    requires seg.flags.syn && !seg.flags.ack
    ensures Goal(x, With(x, OnSynSent(Unbounded, x.tcb, seg).0), y, xf, yf')
  {
    QuietFacts(x, y, xy, yx, xf, yf);
    SegFacts(x, y, xy, yx, xf, yf, seg);
    if Latched(y.tcb) { SynAckStays(x, y, xy, yx, xf, yf, seg, yf'); }
    hide Quiet, Core, Remains, Ready;
    CrossingSyn(x.tcb, seg);
    hide OnSynSent, SynSupplied, BlockSupplied;
    LatchedPart(x.tcb, OnSynSent(Unbounded, x.tcb, seg).0, y.tcb, xf, yf, yf');
  }

  lemma SynAckStays(x: Node, y: Node, xy: set<TcpSegment>, yx: set<TcpSegment>, xf: seq<TcpSegment>, yf: seq<TcpSegment>,
                    seg: TcpSegment, yf': seq<TcpSegment>)
    requires Quiet(x, y, xy, yx, xf, yf) && x.tcb.state == SYN_SENT && Latched(y.tcb)
    requires Remains(yf, yf', seg) && !seg.flags.ack
    ensures HasAck(yf', x.tcb.iss + 1)
  {
    var w :| w in yf && w.flags.syn && w.flags.ack;
    AcksInHandshake(x, y, xy, yx, xf, yf, w);
    Seen(yf', w);
  }

  lemma CrossingSyn(t: Tcb, seg: TcpSegment)
    requires t.state == SYN_SENT && t.outbox == [] && seg.flags.syn && !seg.flags.ack
    ensures var t' := OnSynSent(Unbounded, t, seg).0;
            && t' == t.(irs := seg.seqNo, rcvNxt := seg.seqNo + 1, peerMss := t'.peerMss, state := SYN_RECEIVED, outbox := t'.outbox)
            && |t'.outbox| == 1 && t'.outbox[0].flags == SYN_ACK && t'.outbox[0].ackNo == seg.seqNo + 1
  {
  }

  /** A SYN+ACK in SYN_SENT: established, and the first block may go out. */
  lemma SynAckSupplied(x: Node, y: Node, xy: set<TcpSegment>, yx: set<TcpSegment>, xf: seq<TcpSegment>, yf: seq<TcpSegment>,
                       seg: TcpSegment, yf': seq<TcpSegment>)
    requires Quiet(x, y, xy, yx, xf, yf) && x.tcb.state == SYN_SENT && seg in yx && Remains(yf, yf', seg)
    requires seg.flags.syn && seg.flags.ack
    ensures Goal(x, With(x, OnSynSent(Unbounded, x.tcb, seg).0), y, xf, yf')
  {
    QuietFacts(x, y, xy, yx, xf, yf);
    SegFacts(x, y, xy, yx, xf, yf, seg);
    ListeningNumbers(x, y, xy, yx);
    hide Quiet, Core, Remains, Ready;
    SynAckArrives(x, seg);
    hide Local, OnSynSent, SynSupplied, BlockSupplied;
    UpPart(x.tcb, OnSynSent(Unbounded, x.tcb, seg).0, y.tcb, xf, yf');
  }

  /** x is up: its peer in SYN_RECEIVED gets the ACK, and its first block is on the way. */
  lemma UpPart(x: Tcb, t: Tcb, y: Tcb, xf: seq<TcpSegment>, yf': seq<TcpSegment>)
    requires y.state == SYN_RECEIVED && !y.haveUnacked && y.rcvNxt == x.sndNxt && !x.haveUnacked
    requires t.state == ESTABLISHED && OutOk(x, t) && t.outbox != [] && t.outbox[0].flags == ACK && t.outbox[0].ackNo == y.iss + 1
    ensures SynSupplied(t, y, xf + t.outbox, yf') && SynSupplied(y, t, yf', xf + t.outbox)
    ensures BlockSupplied(t, y, xf + t.outbox, yf') && BlockSupplied(y, t, yf', xf + t.outbox)
  {
    Seen(t.outbox, t.outbox[0]);
    Appended(xf, t.outbox, y.iss + 1, t);
    hide HasBareSyn, HasSynAck, HasAck, HasPureAck, HasBlock;
  }

  lemma ListeningNumbers(x: Node, y: Node, xy: set<TcpSegment>, yx: set<TcpSegment>)
    requires Core(x, y, xy, yx) && x.tcb.state == SYN_SENT
    ensures x.tcb.sndNxt == x.tcb.iss + 1
    ensures Latched(y.tcb) && y.tcb.state == SYN_RECEIVED ==> y.tcb.rcvNxt == x.tcb.iss + 1
  {
  }

  lemma SynAckArrives(x: Node, seg: TcpSegment)
    requires Local(x) && x.tcb.state == SYN_SENT && x.tcb.outbox == [] && seg.flags.syn && seg.flags.ack
    requires seg.ackNo == x.tcb.iss + 1
    ensures var t' := OnSynSent(Unbounded, x.tcb, seg).0;
            && OutOk(x.tcb, t')
            && t'.state == ESTABLISHED && t'.irs == seg.seqNo && t'.rcvNxt == seg.seqNo + 1 && t'.iss == x.tcb.iss
            && t'.outbox != [] && t'.outbox[0].flags == ACK && t'.outbox[0].ackNo == seg.seqNo + 1
  {
    SynSentNumbers(x);
    var t2 := EmitPureAck(Unbounded, Latch(Unbounded, x.tcb, seg).(sndUna := seg.ackNo, sndWnd := seg.window)).(state := ESTABLISHED);
    FlushSendEffect(t2);
  }

  /** x may have begun a new block, or still waits for the ACK of the old one. */
  lemma OwnBlock(x: Node, x': Node, y: Node, xy: set<TcpSegment>, yx: set<TcpSegment>,
                 xf: seq<TcpSegment>, yf: seq<TcpSegment>,
                 yf': seq<TcpSegment>)
    requires Quiet(x, y, xy, yx, xf, yf) && x.tcb.state in {SYN_RECEIVED, ESTABLISHED}
    requires Core(x', y, xy, yx) && x'.tcb.state == ESTABLISHED && x'.tcb.iss == x.tcb.iss && x'.tcb.haveUnacked
    requires SameBlock(x.tcb, x'.tcb) || NewBlock(x.tcb, x'.tcb)
    requires SameBlock(x.tcb, x'.tcb) && HasPureAck(yf, x.tcb.sndNxt) ==> HasPureAck(yf', x.tcb.sndNxt)
    ensures BlockUnderWay(x'.tcb, y.tcb, xf + x'.tcb.outbox) || AckUnderWay(x'.tcb, y.tcb, yf')
  {
    Appended(xf, x'.tcb.outbox, 0, x'.tcb);
    if SameBlock(x.tcb, x'.tcb) {
      SameBlockSame(xf, x.tcb, x'.tcb);
      OwnNumbers(x, y, xy, yx);
      OwnNumbers(x', y, xy, yx);
      SameBlockSupplied(x, y, xy, yx, xf, yf);
    } else {
      NewBlockExpected(x, x', y, xy, yx);
    }
    hide Quiet, Core, HasBlock, HasPureAck;
  }

  lemma SameBlockSupplied(x: Node, y: Node, xy: set<TcpSegment>, yx: set<TcpSegment>,
                          xf: seq<TcpSegment>, yf: seq<TcpSegment>)
    requires Quiet(x, y, xy, yx, xf, yf) && x.tcb.haveUnacked
    ensures BlockUnderWay(x.tcb, y.tcb, xf) || AckUnderWay(x.tcb, y.tcb, yf)
  {
    hide Core, OneBlock, BlockUnderWay, AckUnderWay;
  }

  // The peer has everything before a block that has just begun.
  lemma NewBlockExpected(x: Node, x': Node, y: Node, xy: set<TcpSegment>, yx: set<TcpSegment>)
    requires Core(x, y, xy, yx) && Core(x', y, xy, yx) && x'.tcb.iss == x.tcb.iss
    requires x'.tcb.haveUnacked && x'.tcb.unackedSeq == x.tcb.sndNxt
    ensures y.tcb.rcvNxt == x.tcb.sndNxt
  {
    assert y.tcb.irs == x.tcb.iss && StreamOk(x, y);
    hide FirstBlockOnly, FinInOrderOrFirst, PktOk, ReceiverOk, StateOk;
  }

  lemma SameBlockSame(f: seq<TcpSegment>, t: Tcb, t': Tcb)
    requires SameBlock(t, t')
    ensures HasBlock(f, t) ==> HasBlock(f, t')
  {
  }

  lemma OwnNumbers(x: Node, y: Node, xy: set<TcpSegment>, yx: set<TcpSegment>)
    requires Core(x, y, xy, yx) && x.tcb.state == ESTABLISHED
    ensures x.tcb.sndNxt == DataEnd(x)
    ensures x.tcb.haveUnacked ==> x.tcb.unackedSeq < x.tcb.unackedSeq + |x.tcb.unackedData| == x.tcb.sndNxt
    ensures x.tcb.haveUnacked ==> x.tcb.sndUna < x.tcb.sndNxt
  {
  }

  /** The peer's block was taken and is acknowledged, or is still to come, or its ACK is. */
  lemma PeerBlock(x: Node, t': Tcb, y: Node, xy: set<TcpSegment>, yx: set<TcpSegment>,
                  xf: seq<TcpSegment>, yf: seq<TcpSegment>,
                  seg: TcpSegment, yf': seq<TcpSegment>)
    requires Quiet(x, y, xy, yx, xf, yf) && y.tcb.haveUnacked && seg in yx && Remains(yf, yf', seg)
    requires t'.rcvNxt == x.tcb.rcvNxt + (if seg.seqNo == x.tcb.rcvNxt then |seg.payload| else 0)
    requires t'.rcvNxt != x.tcb.rcvNxt ==> HasPureAck(t'.outbox, t'.rcvNxt)
    ensures BlockUnderWay(y.tcb, t', yf') || AckUnderWay(y.tcb, t', xf + t'.outbox)
  {
    QuietFlip(x, y, xy, yx, xf, yf);
    DataBelow(y, x, yx, xy, yf, xf, seg);
    hide *;
    TakenOrNot(x.tcb, t', y.tcb, xf, yf, seg, yf');
  }

  lemma QuietFlip(x: Node, y: Node, xy: set<TcpSegment>, yx: set<TcpSegment>, xf: seq<TcpSegment>, yf: seq<TcpSegment>)
    requires Quiet(x, y, xy, yx, xf, yf)
    ensures Quiet(y, x, yx, xy, yf, xf)
  {
    assert xy + Pending(x) == xy && yx + Pending(y) == yx;
    hide Half, Local, Supplied, OneBlock;
  }

  lemma DataBelow(x: Node, y: Node, xy: set<TcpSegment>, yx: set<TcpSegment>,
                  xf: seq<TcpSegment>, yf: seq<TcpSegment>, seg: TcpSegment)
    requires Quiet(x, y, xy, yx, xf, yf) && seg in xy && x.tcb.haveUnacked
    ensures seg.payload != [] ==> seg.seqNo < x.tcb.sndNxt && (seg.seqNo >= x.tcb.unackedSeq ==> IsBlock(seg, x.tcb))
    ensures x.tcb.unackedData != [] && x.tcb.sndNxt == x.tcb.unackedSeq + |x.tcb.unackedData|
    ensures BlockUnderWay(x.tcb, y.tcb, xf) || AckUnderWay(x.tcb, y.tcb, yf)
  {
    PeerOfSynSent(x, y, xy, yx, xf, yf);
    assert xy + Pending(x) == xy;
    assert PktOk(seg, x);
    hide HasBlock, HasPureAck;
  }

  lemma TakenOrNot(x: Tcb, x': Tcb, y: Tcb, xf: seq<TcpSegment>, yf: seq<TcpSegment>, seg: TcpSegment, yf': seq<TcpSegment>)
    requires BlockUnderWay(y, x, yf) || AckUnderWay(y, x, xf)
    requires seg.payload != [] ==> seg.seqNo < y.sndNxt && (seg.seqNo >= y.unackedSeq ==> IsBlock(seg, y))
    requires y.unackedData != [] && y.sndNxt == y.unackedSeq + |y.unackedData| && Remains(yf, yf', seg)
    requires x'.rcvNxt == x.rcvNxt + (if seg.seqNo == x.rcvNxt then |seg.payload| else 0)
    requires x'.rcvNxt != x.rcvNxt ==> HasPureAck(x'.outbox, x'.rcvNxt)
    ensures BlockUnderWay(y, x', yf') || AckUnderWay(y, x', xf + x'.outbox)
  {
    Appended(xf, x'.outbox, y.sndNxt, y);
    StillSeen(yf, yf', seg, 0, y);
    hide HasBlock, HasPureAck;
  }

  lemma RepeatSynAckSupplied(x: Node, y: Node, xy: set<TcpSegment>, yx: set<TcpSegment>,
                             xf: seq<TcpSegment>, yf: seq<TcpSegment>,
                             seg: TcpSegment, yf': seq<TcpSegment>)
    requires Quiet(x, y, xy, yx, xf, yf) && x.tcb.state == SYN_RECEIVED && seg in yx && Remains(yf, yf', seg)
    requires seg.flags.syn && !seg.flags.ack
    ensures Goal(x, With(x, EmitSynAck(Unbounded, x.tcb)), y, xf, yf')
  {
    var t := EmitSynAck(Unbounded, x.tcb);
    RepeatShape(x, y, xy, yx, xf, yf);
    RepeatSyns(x, y, xy, yx, xf, yf, seg, yf');
    RepeatBlock(x, y, xy, yx, xf, yf, seg, yf');
    hide Quiet, Remains, EmitSynAck, SynSupplied, BlockUnderWay, AckUnderWay, OutOk, OpenState;
  }

  /** A repeated SYN+ACK queues one segment and changes nothing else. */
  lemma RepeatShape(x: Node, y: Node, xy: set<TcpSegment>, yx: set<TcpSegment>, xf: seq<TcpSegment>, yf: seq<TcpSegment>)
    requires Quiet(x, y, xy, yx, xf, yf) && x.tcb.state == SYN_RECEIVED
    ensures var t := EmitSynAck(Unbounded, x.tcb);
            t == x.tcb.(outbox := t.outbox) && !t.haveUnacked && OutOk(x.tcb, t) && OpenState(With(x, t)) && OpenState(y)
  {
    QuietFacts(x, y, xy, yx, xf, yf);
    hide Quiet, Core, Ready, Local, SynSupplied, BlockSupplied, Plain;
  }

  lemma RepeatSyns(x: Node, y: Node, xy: set<TcpSegment>, yx: set<TcpSegment>,
                   xf: seq<TcpSegment>, yf: seq<TcpSegment>,
                   seg: TcpSegment, yf': seq<TcpSegment>)
    requires Quiet(x, y, xy, yx, xf, yf) && x.tcb.state == SYN_RECEIVED && Remains(yf, yf', seg) && !seg.flags.ack
    ensures var t := EmitSynAck(Unbounded, x.tcb);
            SynSupplied(t, y.tcb, xf + t.outbox, yf') && SynSupplied(y.tcb, t, yf', xf + t.outbox)
  {
    var t := EmitSynAck(Unbounded, x.tcb);
    QuietFacts(x, y, xy, yx, xf, yf);
    RepeatShape(x, y, xy, yx, xf, yf);
    hide Quiet, Core, Local, Ready, Remains, EmitSynAck, OutOk, OpenState, SynSupplied, BlockSupplied;
    hide HasBareSyn, HasSynAck, HasAck, HasPureAck, HasBlock;
    StillSeen(yf, yf', seg, x.tcb.iss + 1, y.tcb);
    MoreSyns(x.tcb, t, y.tcb, xf, yf, yf');
  }

  lemma RepeatBlock(x: Node, y: Node, xy: set<TcpSegment>, yx: set<TcpSegment>,
                    xf: seq<TcpSegment>, yf: seq<TcpSegment>,
                    seg: TcpSegment, yf': seq<TcpSegment>)
    requires Quiet(x, y, xy, yx, xf, yf) && x.tcb.state == SYN_RECEIVED && seg in yx && Remains(yf, yf', seg)
    requires seg.flags.syn
    ensures var t := EmitSynAck(Unbounded, x.tcb); BlockSupplied(y.tcb, t, yf', xf + t.outbox)
  {
    SegFacts(x, y, xy, yx, xf, yf, seg);
    RepeatShape(x, y, xy, yx, xf, yf);
    hide Quiet, Remains, EmitSynAck, OutOk, OpenState, BlockUnderWay, AckUnderWay;
    if y.tcb.haveUnacked {
      PeerBlock(x, EmitSynAck(Unbounded, x.tcb), y, xy, yx, xf, yf, seg, yf');
    }
  }

  lemma MoreSyns(x: Tcb, t: Tcb, y: Tcb, xf: seq<TcpSegment>, yf: seq<TcpSegment>, yf': seq<TcpSegment>)
    requires t == x.(outbox := t.outbox) && Latched(x) && x.state == SYN_RECEIVED && Facts(y, x)
    requires SynSupplied(x, y, xf, yf) && SynSupplied(y, x, yf, xf)
    requires HasAck(yf, x.iss + 1) ==> HasAck(yf', x.iss + 1)
    ensures SynSupplied(t, y, xf + t.outbox, yf') && SynSupplied(y, t, yf', xf + t.outbox)
  {
    Appended(xf, t.outbox, y.iss + 1, t);
    hide HasBareSyn, HasSynAck, HasAck, Ready;
  }

  lemma HandshakeAck(x: Node, y: Node, xy: set<TcpSegment>, yx: set<TcpSegment>, seg: TcpSegment)
    requires Core(x, y, xy, yx) && x.tcb.state == SYN_RECEIVED && x.tcb.outbox == []
    requires seg in yx && seg.flags.ack && seg.ackNo == x.tcb.iss + 1 && !seg.flags.fin
    ensures var t := x.tcb.(sndUna := seg.ackNo, sndWnd := seg.window, state := ESTABLISHED);
            && OnSynReceived(Unbounded, x.tcb, seg).0 == TakeFirstData(Unbounded, t, seg)
            && Ready(t) && (seg.payload != [] ==> seg.seqNo == t.rcvNxt)
  {
    if seg.payload != [] { OnlyFirstBlock(x, y, xy, yx, seg); }
    assert PktOk(seg, y);
    hide TakeFirstData;
  }

  lemma EstablishSupplied(x: Node, y: Node, xy: set<TcpSegment>, yx: set<TcpSegment>,
                          xf: seq<TcpSegment>, yf: seq<TcpSegment>,
                          seg: TcpSegment, yf': seq<TcpSegment>)
    requires Quiet(x, y, xy, yx, xf, yf) && x.tcb.state == SYN_RECEIVED && seg in yx && Remains(yf, yf', seg)
    requires seg.flags.ack
    requires Core(With(x, OnSynReceived(Unbounded, x.tcb, seg).0), y, xy, yx)
    ensures Goal(x, With(x, OnSynReceived(Unbounded, x.tcb, seg).0), y, xf, yf')
  {
    QuietFacts(x, y, xy, yx, xf, yf);
    SegFacts(x, y, xy, yx, xf, yf, seg);
    hide Quiet, Core, Goal, Remains;
    HandshakeAck(x, y, xy, yx, seg);
    var t := x.tcb.(sndUna := seg.ackNo, sndWnd := seg.window, state := ESTABLISHED);
    FirstDataEffect(t, seg);
    FirstDataFrame(t, seg);
    hide OnSynReceived, TakeFirstData, Ready, HasPureAck, HasBlock;
    Advance(x, With(x, OnSynReceived(Unbounded, x.tcb, seg).0), y, xy, yx, xf, yf, seg, yf');
  }

  lemma FirstDataFrame(t: Tcb, seg: TcpSegment)
    ensures TakeFirstData(Unbounded, t, seg).iss == t.iss
  {
    hide HandlePeerFin;
    assert HandlePeerFin(Unbounded, t).iss == t.iss by { PeerFinIss(t); }
    PeerFinIss(TakePayload(Unbounded, t, seg));
    var t1 := if seg.payload == [] then t else TakePayload(Unbounded, t, seg);
    FlushSendIss(if seg.flags.fin then HandlePeerFin(Unbounded, t1) else t1);
    hide FlushSend;
  }

  lemma PeerFinIss(t: Tcb)
    ensures HandlePeerFin(Unbounded, t).iss == t.iss
  {
  }

  lemma StillLatched(x: Node, y: Node, xy: set<TcpSegment>, yx: set<TcpSegment>)
    requires Core(x, y, xy, yx) && x.tcb.state == ESTABLISHED
    ensures Latched(x.tcb)
  {
    hide Half;
  }

  /** x is established after seg: its own needs and its peer's are still supplied. */
  lemma Advance(x: Node, x': Node, y: Node, xy: set<TcpSegment>, yx: set<TcpSegment>,
                xf: seq<TcpSegment>, yf: seq<TcpSegment>,
                seg: TcpSegment, yf': seq<TcpSegment>)
    requires Quiet(x, y, xy, yx, xf, yf) && x.tcb.state in {SYN_RECEIVED, ESTABLISHED} && Latched(y.tcb)
    requires Core(x', y, xy, yx) && x' == With(x, x'.tcb) && x'.tcb.state == ESTABLISHED && x'.tcb.iss == x.tcb.iss
    requires seg in yx && Remains(yf, yf', seg) && OutOk(x.tcb, x'.tcb)
    requires SameBlock(x.tcb, x'.tcb) ==> !ClearsBlock(x.tcb, seg)
    requires x'.tcb.rcvNxt == x.tcb.rcvNxt + (if seg.seqNo == x.tcb.rcvNxt then |seg.payload| else 0)
    requires x'.tcb.rcvNxt != x.tcb.rcvNxt ==> HasPureAck(x'.tcb.outbox, x'.tcb.rcvNxt)
    ensures Goal(x, x', y, xf, yf')
  {
    QuietFacts(x, y, xy, yx, xf, yf);
    StillLatched(x', y, xy, yx);
    if SameBlock(x.tcb, x'.tcb) { OwnNumbers(x, y, xy, yx); }
    hide Core, Ready, Quiet;
    StillSeen(yf, yf', seg, x.tcb.sndNxt, y.tcb);
    hide HasAck, HasBareSyn, HasPureAck, HasBlock, HasSynAck, OutOk, NewBlock, Remains;
    AdvanceSyns(x.tcb, x'.tcb, y.tcb, xf, yf, yf');
    hide SynSupplied;
    AdvanceOwn(x, x', y, xy, yx, xf, yf, yf');
    if y.tcb.haveUnacked {
      PeerBlock(x, x'.tcb, y, xy, yx, xf, yf, seg, yf');
    }
    hide BlockUnderWay, AckUnderWay;
  }

  lemma AdvanceOwn(x: Node, x': Node, y: Node, xy: set<TcpSegment>, yx: set<TcpSegment>,
                   xf: seq<TcpSegment>, yf: seq<TcpSegment>,
                   yf': seq<TcpSegment>)
    requires Quiet(x, y, xy, yx, xf, yf) && x.tcb.state in {SYN_RECEIVED, ESTABLISHED}
    requires Core(x', y, xy, yx) && x'.tcb.state == ESTABLISHED && x'.tcb.iss == x.tcb.iss && OutOk(x.tcb, x'.tcb)
    requires SameBlock(x.tcb, x'.tcb) && HasPureAck(yf, x.tcb.sndNxt) ==> HasPureAck(yf', x.tcb.sndNxt)
    ensures BlockSupplied(x'.tcb, y.tcb, xf + x'.tcb.outbox, yf')
  {
    if x'.tcb.haveUnacked {
      OwnBlock(x, x', y, xy, yx, xf, yf, yf');
    }
    hide Quiet, Core, NewBlock, HasPureAck;
  }

  lemma AdvanceSyns(x: Tcb, x': Tcb, y: Tcb, xf: seq<TcpSegment>, yf: seq<TcpSegment>, yf': seq<TcpSegment>)
    requires Latched(x) && Latched(x') && x'.state == ESTABLISHED && Latched(y) && Facts(y, x)
    requires SynSupplied(y, x, yf, xf)
    ensures SynSupplied(x', y, xf + x'.outbox, yf') && SynSupplied(y, x', yf', xf + x'.outbox)
  {
    Appended(xf, x'.outbox, y.iss + 1, y);
    hide HasBareSyn, HasSynAck, HasAck, Ready;
  }

  lemma EstablishedSupplied(x: Node, y: Node, xy: set<TcpSegment>, yx: set<TcpSegment>,
                            xf: seq<TcpSegment>, yf: seq<TcpSegment>,
                            seg: TcpSegment, yf': seq<TcpSegment>)
    requires Quiet(x, y, xy, yx, xf, yf) && x.tcb.state == ESTABLISHED && seg in yx && Remains(yf, yf', seg)
    requires Core(With(x, OnEstablished(Unbounded, x.tcb, seg).0), y, xy, yx)
    ensures Goal(x, With(x, OnEstablished(Unbounded, x.tcb, seg).0), y, xf, yf')
  {
    PeerOfSynSent(x, y, xy, yx, xf, yf);
    AcksInHandshake(x, y, xy, yx, xf, yf, seg);
    EstablishedEffect(x.tcb, seg);
    hide OnEstablished;
    Advance(x, With(x, OnEstablished(Unbounded, x.tcb, seg).0), y, xy, yx, xf, yf, seg, yf');
  }

  /** x takes no notice of seg, which nobody was waiting for. */
  lemma Unmoved(x: Node, y: Node, xy: set<TcpSegment>, yx: set<TcpSegment>, xf: seq<TcpSegment>, yf: seq<TcpSegment>,
                seg: TcpSegment, yf': seq<TcpSegment>)
    requires Quiet(x, y, xy, yx, xf, yf) && Remains(yf, yf', seg)
    requires yf' == yf || (x.tcb.state == SYN_SENT && seg in yx && !seg.flags.syn)
    ensures Goal(x, x, y, xf, yf')
  {
    QuietFacts(x, y, xy, yx, xf, yf);
    hide Quiet, Core, Ready, Remains, HasBareSyn, HasSynAck, HasAck, HasPureAck, HasBlock;
    if yf' != yf { UnmovedPart(x.tcb, y.tcb, xf, yf, seg, yf'); }
    assert xf + x.tcb.outbox == xf;
    hide SynSupplied, BlockSupplied;
  }

  lemma UnmovedPart(x: Tcb, y: Tcb, xf: seq<TcpSegment>, yf: seq<TcpSegment>, seg: TcpSegment, yf': seq<TcpSegment>)
    requires Facts(x, y) && Facts(y, x) && x.state == SYN_SENT && !seg.flags.syn && Remains(yf, yf', seg)
    requires SynSupplied(x, y, xf, yf) && SynSupplied(y, x, yf, xf)
    ensures SynSupplied(x, y, xf, yf') && SynSupplied(y, x, yf', xf)
    ensures BlockSupplied(x, y, xf, yf') && BlockSupplied(y, x, yf', xf)
  {
    hide Ready, Remains, HasBareSyn, HasSynAck, HasAck, HasPureAck, HasBlock;
    StillSeen(yf, yf', seg, 0, y);
  }

  lemma ArrivalSupplied(x: Node, y: Node, xy: set<TcpSegment>, yx: set<TcpSegment>, xf: seq<TcpSegment>, yf: seq<TcpSegment>,
                        seg: TcpSegment, iss: nat, yf': seq<TcpSegment>)
    requires Quiet(x, y, xy, yx, xf, yf) && seg in yx && Remains(yf, yf', seg) && (x.started || yf' == yf)
    ensures Goal(x, With(x, OnSegment(Unbounded, x.tcb, seg, y.tcb.localIp, iss).0), y, xf, yf')
  {
    SegmentKeeps(x, y, xy, yx, seg, iss);
    FromPeer(x, y, xy, yx, seg);
    Dispatch(x.tcb, seg, y.tcb.localIp, iss);
    AcksInHandshake(x, y, xy, yx, xf, yf, seg);
    assert seg.flags.syn || seg.flags.ack;
    hide Core, OnSegment, OnListen, OnSynSent, OnSynReceived, OnEstablished, EmitPureAck, EmitSynAck, Goal, PktOk;
    match x.tcb.state
    case CLOSED => Unmoved(x, y, xy, yx, xf, yf, seg, yf');
    case LISTEN => ListenSupplied(x, y, xy, yx, xf, yf, seg, iss, yf');
    case SYN_SENT => SynSentSupplied(x, y, xy, yx, xf, yf, seg, yf');
    case SYN_RECEIVED => SynReceivedSupplied(x, y, xy, yx, xf, yf, seg, yf');
    case ESTABLISHED => EstablishedSupplied(x, y, xy, yx, xf, yf, seg, yf');
    case _ =>
  }

  lemma SynSentSupplied(x: Node, y: Node, xy: set<TcpSegment>, yx: set<TcpSegment>, xf: seq<TcpSegment>, yf: seq<TcpSegment>,
                        seg: TcpSegment, yf': seq<TcpSegment>)
    requires Quiet(x, y, xy, yx, xf, yf) && x.tcb.state == SYN_SENT && seg in yx && Remains(yf, yf', seg)
    ensures Goal(x, With(x, OnSynSent(Unbounded, x.tcb, seg).0), y, xf, yf')
  {
    if !seg.flags.syn {
      Unmoved(x, y, xy, yx, xf, yf, seg, yf');
      assert With(x, OnSynSent(Unbounded, x.tcb, seg).0) == x;
    } else if seg.flags.ack {
      SynAckSupplied(x, y, xy, yx, xf, yf, seg, yf');
    } else {
      CrossingSynSupplied(x, y, xy, yx, xf, yf, seg, yf');
    }
  }

  lemma SynReceivedSupplied(x: Node, y: Node, xy: set<TcpSegment>, yx: set<TcpSegment>,
                            xf: seq<TcpSegment>, yf: seq<TcpSegment>,
                            seg: TcpSegment, yf': seq<TcpSegment>)
    requires Quiet(x, y, xy, yx, xf, yf) && x.tcb.state == SYN_RECEIVED && seg in yx && Remains(yf, yf', seg)
    requires Core(With(x, OnSynReceived(Unbounded, x.tcb, seg).0), y, xy, yx) && (seg.flags.syn || seg.flags.ack)
    ensures Goal(x, With(x, OnSynReceived(Unbounded, x.tcb, seg).0), y, xf, yf')
  {
    if seg.flags.ack {
      EstablishSupplied(x, y, xy, yx, xf, yf, seg, yf');
    } else {
      RepeatSynAckSupplied(x, y, xy, yx, xf, yf, seg, yf');
    }
  }

  // --- Actions and runs -----------------------------------------------------------------

  ghost predicate QuietFor(n: Node, peer: Node, out: Channel, inp: Channel) {
    && InvFor(n, peer, out, inp)
    && Supplied(n, peer, out.flight, inp.flight) && Supplied(peer, n, inp.flight, out.flight)
    && OneBlock(n.tcb, out.sent) && OneBlock(peer.tcb, inp.sent)
  }

  lemma QuietForQuiet(n: Node, peer: Node, out: Channel, inp: Channel)
    requires QuietFor(n, peer, out, inp)
    ensures Quiet(n, peer, out.sent, inp.sent, out.flight, inp.flight)
  {
  }

  /** x is what the call made of n; its outbox goes out, and inp' is what is left to arrive. */
  lemma GoalReached(n: Node, x: Node, peer: Node, out: Channel, inp: Channel, inp': Channel)
    requires QuietFor(n, peer, out, inp) && Goal(n, x, peer, out.flight, inp'.flight) && inp'.sent == inp.sent
    requires InvFor(Flush(x, x.tcb, out).0, peer, Flush(x, x.tcb, out).1, inp')
    requires x.tcb.remoteIp == None ==> x.tcb.outbox == []
    ensures QuietFor(Flush(x, x.tcb, out).0, peer, Flush(x, x.tcb, out).1, inp')
  {
    var (n', out') := Flush(x, x.tcb, out);
    assert out'.flight == out.flight + x.tcb.outbox;
    FlushedSupplied(x, peer, out'.flight, inp'.flight);
    FlushedSupplied2(x, peer, out'.flight, inp'.flight);
    NewOneBlock(n, x.tcb, peer, out, inp);
    hide InvFor, Supplied;
  }

  lemma FlushedSupplied(x: Node, peer: Node, xf: seq<TcpSegment>, yf: seq<TcpSegment>)
    requires Supplied(x, peer, xf, yf)
    ensures Supplied(With(x, x.tcb.(outbox := [])), peer, xf, yf)
  {
    if x.tcb.haveUnacked { SameBlockSame(xf, x.tcb, x.tcb.(outbox := [])); }
  }

  lemma FlushedSupplied2(x: Node, peer: Node, xf: seq<TcpSegment>, yf: seq<TcpSegment>)
    requires Supplied(peer, x, yf, xf)
    ensures Supplied(peer, With(x, x.tcb.(outbox := [])), yf, xf)
  {
  }

  lemma NewOneBlock(n: Node, t: Tcb, peer: Node, out: Channel, inp: Channel)
    requires QuietFor(n, peer, out, inp) && OutOk(n.tcb, t)
    requires t.remoteIp == None ==> t.outbox == []
    ensures OneBlock(t.(outbox := []), Flush(n, t, out).1.sent)
  {
    QuietForQuiet(n, peer, out, inp);
    QuietFacts(n, peer, out.sent, inp.sent, out.flight, inp.flight);
    hide Quiet, InvFor, Supplied, HasBlock, Core, Ready;
    if t.haveUnacked {
      SentBelow(n, peer, out.sent, inp.sent);
      assert Flush(n, t, out).1.sent == out.sent + set s | s in t.outbox;
      BlockStaysOne(n.tcb, t, out.sent);
    }
  }

  lemma BlockStaysOne(t: Tcb, t': Tcb, sent: set<TcpSegment>)
    requires OneBlock(t, sent) && OutOk(t, t') && t'.haveUnacked
    requires forall s :: s in sent && s.payload != [] ==> s.seqNo < t.sndNxt
    ensures OneBlock(t'.(outbox := []), sent + set s | s in t'.outbox)
  {
    hide HasBlock;
  }

  // Data already sent lies below snd_nxt.
  lemma SentBelow(x: Node, y: Node, xy: set<TcpSegment>, yx: set<TcpSegment>)
    requires Core(x, y, xy, yx) && !x.tcb.finSent
    ensures forall s :: s in xy && s.payload != [] ==> s.seqNo < x.tcb.sndNxt
  {
    forall s | s in xy && s.payload != [] ensures s.seqNo < x.tcb.sndNxt {
      assert PktOk(s, x) && SliceOk(s, x);
    }
    hide Half, ReceiverOk, StateOk;
  }

  /** Nothing is lost, closed or aborted by this action. */
  predicate Calm(n: Node, inp: Channel, act: Action) {
    && !act.DoClose?
    && (act.Drop? ==> act.i >= |inp.flight|)
    && (act.Deliver? ==> n.started)
    && (act.Inject? ==> !act.seg.flags.rst)
  }

  ghost predicate StaysQuiet(n: Node, peer: Node, out: Channel, inp: Channel, act: Action) {
    var (n', out', inp') := Act(Unbounded, n, peer, out, inp, act); QuietFor(n', peer, out', inp')
  }

  lemma ArrivalQuiet(n: Node, peer: Node, out: Channel, inp: Channel, seg: TcpSegment, iss: nat, inp': Channel)
    requires QuietFor(n, peer, out, inp) && seg in inp.sent
    requires inp' == inp.(flight := inp'.flight) && Remains(inp.flight, inp'.flight, seg) && (n.started || inp' == inp)
    requires var (n', out') := Receive(Unbounded, n, seg, peer.tcb.localIp, iss, out); InvFor(n', peer, out', inp')
    ensures var (n', out') := Receive(Unbounded, n, seg, peer.tcb.localIp, iss, out); QuietFor(n', peer, out', inp')
  {
    QuietForQuiet(n, peer, out, inp);
    ArrivalSupplied(n, peer, out.sent, inp.sent, out.flight, inp.flight, seg, iss, inp'.flight);
    var x := With(n, OnSegment(Unbounded, n.tcb, seg, peer.tcb.localIp, iss).0);
    SegmentKeeps(n, peer, out.sent, inp.sent, seg, iss);
    OutboxBound(x, peer, out.sent, inp.sent);
    hide Core, OnSegment, QuietFor, Goal, InvFor, Remains;
    GoalReached(n, x, peer, out, inp, inp');
  }

  lemma ReceiveQuiet(n: Node, peer: Node, out: Channel, inp: Channel, act: Action)
    requires QuietFor(n, peer, out, inp) && Calm(n, inp, act) && (act.Deliver? || act.Redeliver?)
    ensures StaysQuiet(n, peer, out, inp, act)
  {
    ActKeeps(n, peer, out, inp, act);
    if act.iss < M32 {
      if act.Deliver? {
        if act.i < |inp.flight| {
          ArrivalQuiet(n, peer, out, inp, inp.flight[act.i], act.iss, inp.(flight := Without(inp.flight, act.i)));
        }
      } else if act.seg in inp.sent {
        ArrivalQuiet(n, peer, out, inp, act.seg, act.iss, inp);
      }
    }
    hide Core, Receive, Supplied, OneBlock;
  }

  lemma WriteQuiet(n: Node, peer: Node, out: Channel, inp: Channel, data: bytes)
    requires QuietFor(n, peer, out, inp)
    ensures StaysQuiet(n, peer, out, inp, DoWrite(A, data))
  {
    ActKeeps(n, peer, out, inp, DoWrite(A, data));
    QuietForQuiet(n, peer, out, inp);
    if Write(Unbounded, n.tcb, data).Ok? {
      WriteKeeps(n, peer, out.sent, inp.sent, data);
      var x := n.(tcb := Write(Unbounded, n.tcb, data).value, written := n.written + data);
      OutboxBound(x, peer, out.sent, inp.sent);
      WriteGoal(n, x, peer, out.sent, inp.sent, out.flight, inp.flight, data);
      hide Core, Write, Goal;
      GoalReached(n, x, peer, out, inp, inp);
    }
  }

  lemma WriteGoal(x: Node, x': Node, y: Node, xy: set<TcpSegment>, yx: set<TcpSegment>,
                  xf: seq<TcpSegment>, yf: seq<TcpSegment>, data: bytes)
    requires Quiet(x, y, xy, yx, xf, yf) && Write(Unbounded, x.tcb, data).Ok? && Core(x', y, xy, yx)
    requires x' == x.(tcb := Write(Unbounded, x.tcb, data).value, written := x.written + data)
    ensures Goal(x, x', y, xf, yf)
  {
    PeerOfSynSent(x, y, xy, yx, xf, yf);
    WriteEffect(x.tcb, data);
    if x'.tcb.haveUnacked {
      OwnBlock(x, x', y, xy, yx, xf, yf, yf);
    }
    hide *;
    UserGoal(x, x', y, xf, yf);
  }

  lemma WriteEffect(t: Tcb, data: bytes)
    requires Write(Unbounded, t, data).Ok? && t.outbox == []
    ensures var t' := Write(Unbounded, t, data).value; OutOk(t, t') && SameNumbers(t, t')
  {
    var t1 := t.(sendBuf := t.sendBuf + data);
    FlushSendEffect(t1);
    FlushSendIss(t1);
    hide FlushSend, HasBlock;
  }

  predicate SameNumbers(t: Tcb, t': Tcb) {
    t'.state == t.state && t'.iss == t.iss && t'.irs == t.irs && t'.rcvNxt == t.rcvNxt
  }

  /** A user call that leaves the state and the numbers alone and adds to what is in flight. */
  lemma UserGoal(x: Node, x': Node, y: Node, xf: seq<TcpSegment>, yf: seq<TcpSegment>)
    requires Supplied(x, y, xf, yf) && Supplied(y, x, yf, xf) && SameNumbers(x.tcb, x'.tcb) && x'.started == x.started
    requires OutOk(x.tcb, x'.tcb)
    requires x'.tcb.haveUnacked ==> BlockUnderWay(x'.tcb, y.tcb, xf + x'.tcb.outbox) || AckUnderWay(x'.tcb, y.tcb, yf)
    ensures Goal(x, x', y, xf, yf)
  {
    hide HasBareSyn, HasSynAck, HasAck, HasPureAck, HasBlock, OutOk;
    Appended(xf, x'.tcb.outbox, y.tcb.iss + 1, y.tcb);
    Appended(xf, x'.tcb.outbox, y.tcb.sndNxt, y.tcb);
    UserPeer(x.tcb, x'.tcb, y.tcb, xf, yf);
    hide BlockUnderWay, AckUnderWay;
  }

  lemma UserPeer(x: Tcb, x': Tcb, y: Tcb, xf: seq<TcpSegment>, yf: seq<TcpSegment>)
    requires SameNumbers(x, x') && BlockSupplied(y, x, yf, xf)
    ensures BlockSupplied(y, x', yf, xf + x'.outbox)
  {
    Appended(xf, x'.outbox, y.sndNxt, y);
    hide HasPureAck, HasBlock;
  }

  lemma FlushSendIss(t: Tcb)
    ensures var t' := FlushSend(Unbounded, t); t'.iss == t.iss && t'.irs == t.irs
  {
  }

  lemma RetransmitQuiet(n: Node, peer: Node, out: Channel, inp: Channel)
    requires QuietFor(n, peer, out, inp)
    ensures StaysQuiet(n, peer, out, inp, DoRetransmit(A))
  {
    ActKeeps(n, peer, out, inp, DoRetransmit(A));
    QuietForQuiet(n, peer, out, inp);
    var x := With(n, Retransmit(Unbounded, n.tcb));
    RetransmitKeeps(n, peer, out.sent, inp.sent);
    OutboxBound(x, peer, out.sent, inp.sent);
    RetransmitGoal(n, peer, out.flight, inp.flight);
    hide Core, Retransmit, Goal;
    GoalReached(n, x, peer, out, inp, inp);
  }

  lemma RetransmitGoal(x: Node, y: Node, xf: seq<TcpSegment>, yf: seq<TcpSegment>)
    requires Supplied(x, y, xf, yf) && Supplied(y, x, yf, xf) && x.tcb.outbox == []
    ensures Goal(x, With(x, Retransmit(Unbounded, x.tcb)), y, xf, yf)
  {
    var t := Retransmit(Unbounded, x.tcb);
    assert t == x.tcb.(outbox := t.outbox);
    Appended(xf, t.outbox, 0, t);
    if t.haveUnacked { SameBlockSame(xf + t.outbox, x.tcb, t); }
    UserGoal(x, With(x, t), y, xf, yf);
  }

  lemma OpenQuiet(n: Node, peer: Node, out: Channel, inp: Channel, act: Action)
    requires QuietFor(n, peer, out, inp) && (act.DoOpenActive? || act.DoOpenListen?)
    ensures StaysQuiet(n, peer, out, inp, act)
  {
    ActKeeps(n, peer, out, inp, act);
    if !n.started && n.tcb.state == CLOSED {
      if act.DoOpenListen? {
        assert out.flight + n.tcb.outbox == out.flight;
      } else if act.iss < M32 {
        var x := n.(tcb := OpenActive(Unbounded, n.tcb, peer.tcb.localIp, peer.tcb.localPort, act.iss).value, started := true);
        OpenGoal(n, x, peer, out.flight, inp.flight, act.iss);
        hide OpenActive, Goal;
        GoalReached(n, x, peer, out, inp, inp);
      }
    }
    hide Core;
  }

  lemma OpenGoal(x: Node, x': Node, y: Node, xf: seq<TcpSegment>, yf: seq<TcpSegment>, iss: nat)
    requires Supplied(x, y, xf, yf) && Supplied(y, x, yf, xf) && x.tcb.outbox == [] && Local(x) && !x.started && x.tcb.state == CLOSED
    requires x' == x.(tcb := OpenActive(Unbounded, x.tcb, y.tcb.localIp, y.tcb.localPort, iss).value, started := true)
    requires !Latched(y.tcb)
    ensures Goal(x, x', y, xf, yf)
  {
    assert x'.tcb.outbox[0].flags == SYN;
    Seen(x'.tcb.outbox, x'.tcb.outbox[0]);
    Appended(xf, x'.tcb.outbox, y.tcb.sndNxt, y.tcb);
    hide HasBareSyn, HasSynAck, HasAck, HasPureAck, HasBlock;
  }

  lemma PopReadQuiet(n: Node, peer: Node, out: Channel, inp: Channel, act: Action)
    requires QuietFor(n, peer, out, inp) && act.DoPopRead?
    ensures StaysQuiet(n, peer, out, inp, act)
  {
    ActKeeps(n, peer, out, inp, act);
    var (bytes, t) := PopRead(n.tcb, act.n);
    PopReadMoves(n, act.n);
    hide PopRead, InvFor;
    ReadSupplied(n, n.(tcb := t, popped := n.popped + bytes), peer, out.flight, inp.flight);
    hide Supplied;
  }

  lemma ReadSupplied(x: Node, x': Node, y: Node, xf: seq<TcpSegment>, yf: seq<TcpSegment>)
    requires Supplied(x, y, xf, yf) && Supplied(y, x, yf, xf)
    requires x' == x.(tcb := x.tcb.(readBuf := x'.tcb.readBuf), popped := x'.popped)
    ensures Supplied(x', y, xf, yf) && Supplied(y, x', yf, xf)
  {
    if x.tcb.haveUnacked { SameBlockSame(xf, x.tcb, x'.tcb); }
  }

  lemma InjectQuiet(n: Node, peer: Node, out: Channel, inp: Channel, act: Action)
    requires QuietFor(n, peer, out, inp) && act.Inject? && !act.seg.flags.rst
    ensures StaysQuiet(n, peer, out, inp, act)
  {
    if Foreign(n, peer, act.seg, act.srcIp) {
      QuietForQuiet(n, peer, out, inp);
      ForeignKeeps(n, peer, out.sent, inp.sent, act.seg, act.srcIp);
      hide OnSegment;
      FlushNothing(n, out);
    }
    hide QuietFor, Quiet, Core, Flush;
  }

  lemma FlushNothing(n: Node, out: Channel)
    requires n.tcb.outbox == []
    ensures Flush(n, n.tcb, out) == (n, out)
  {
    assert out.flight + n.tcb.outbox == out.flight && out.sent + Pending(n) == out.sent;
  }

  lemma ActQuiet(n: Node, peer: Node, out: Channel, inp: Channel, act: Action)
    requires QuietFor(n, peer, out, inp) && Calm(n, inp, act)
    ensures StaysQuiet(n, peer, out, inp, act)
  {
    hide QuietFor;
    match act
    case DoOpenActive(_, _) => OpenQuiet(n, peer, out, inp, act);
    case DoOpenListen(_) => OpenQuiet(n, peer, out, inp, act);
    case DoWrite(_, data) => WriteQuiet(n, peer, out, inp, data);
    case DoPopRead(_, _) => PopReadQuiet(n, peer, out, inp, act);
    case DoRetransmit(_) => RetransmitQuiet(n, peer, out, inp);
    case Inject(_, _, _) => InjectQuiet(n, peer, out, inp, act);
    case Drop(_, _) =>
    case _ => ReceiveQuiet(n, peer, out, inp, act);
  }
}
