/** An MSS too large for an IPv4 packet, and what it does. */
module TcpOversize {
  import opened Bytes
  import opened SeqArith
  import opened Segment
  import opened Link
  import opened TcpMachine
  import opened TcpNetwork
  import opened TcpRefine
  import opened TcpSimulation
  import opened TcpTheorems
  import opened TcpHandshake
  import opened TcpWire
  import opened Connection

  /** The client writes more than one packet holds. */
  function Oversize(side: Side): seq<Action> { Opening(side) + [DoWrite(side, Zeros(65535))] }

  lemma ClientWrites(me: Party, peer: Party)
    requires AdoptedMss(peer.mss) <= 65535
    ensures var t := Client2(me, peer);
            var r := Write(Mod32, t, Zeros(65535));
            r.Ok? && r.value.remoteIp == Some(peer.ip)
            && r.value.outbox == [Seg(me, peer, 1, 1, ACK_PSH, Zeros(65535)[..AdoptedMss(peer.mss)])]
  {
    var t := Client2(me, peer).(sendBuf := [] + Zeros(65535));
    assert [] + Zeros(65535) == Zeros(65535);
    var n := AdoptedMss(peer.mss);
    assert FlushSend(Mod32, t) == Emit(Mod32, t.(sendBuf := t.sendBuf[n..]), ACK_PSH, t.sendBuf[..n]);
    assert [] + [Seg(me, peer, 1, 1, ACK_PSH, Zeros(65535)[..n])] == [Seg(me, peer, 1, 1, ACK_PSH, Zeros(65535)[..n])];
  }

  lemma BlockTooLarge(seg: TcpSegment)
    requires seg.options == [] && |seg.payload| > MAX_MSS
    ensures !Fits(seg)
  {
  }

  /** A run whose data segment no frame can carry. */
  lemma OversizedBlock(c: Config, side: Side) returns (seg: TcpSegment)
    requires PartyAt(c, Other(side)).mss % 0x1_0000 > MAX_MSS
    ensures SmallSys(Reach(c, Oversize(side)))
    ensures seg in Reach(c, Oversize(side)).From(side).ab.sent && !Fits(seg)
  {
    var me, peer := PartyAt(c, side), PartyAt(c, Other(side));
    var s4 := Handshake(c, side);
    ClientWrites(me, peer);
    RunSnoc(Start(c), Opening(side), DoWrite(side, Zeros(65535)));
    seg := Seg(me, peer, 1, 1, ACK_PSH, Zeros(65535)[..AdoptedMss(peer.mss)]);
    BlockTooLarge(seg);
    hide Write, Fits, Client2, Server2, Seg;
    WriteStep(s4, side, Zeros(65535), seg);
  }

  lemma WriteStep(s: Sys, side: Side, data: bytes, seg: TcpSegment)
    requires var r := s.From(side); r.a.written == [] && r.b.written == []
    requires var w := Write(Mod32, s.From(side).a.tcb, data); w.Ok? && w.value.remoteIp != None && w.value.outbox == [seg]
    ensures var r := Step(Mod32, s, DoWrite(side, data)).From(side);
            seg in r.ab.sent && r.a.written == data && r.b.written == []
  {
    assert [] + data == data;
    hide Write;
  }

  predicate Carried(dlt: nat, dstMac: bytes, srcMac: bytes, src: Ip, dst: Ip, seg: TcpSegment) {
    var r := BuildFrame(dlt, dstMac, srcMac, src, dst, seg);
    r.Ok? && DecodeFrame(dlt, dst, r.value) == Some(Arrival(seg, src, dst))
  }

  /** Everything this side sends in the run survives packing and parsing. */
  ghost predicate AllCarried(c: Config, acts: seq<Action>, side: Side) {
    forall seg, dlt, dstMac, srcMac :: Supported(dlt, dstMac, srcMac) && seg in Reach(c, acts).From(side).ab.sent ==>
      Carried(dlt, dstMac, srcMac, PartyAt(c, side).ip, PartyAt(c, Other(side)).ip, seg)
  }

  lemma FittingCarries(c: Config, acts: seq<Action>, side: Side)
    requires Usable(c) && FittingMss(c) && SmallSys(Reach(c, acts))
    ensures AllCarried(c, acts, side)
  {
    forall seg, dlt, dstMac, srcMac | Supported(dlt, dstMac, srcMac) && seg in Reach(c, acts).From(side).ab.sent
      ensures Carried(dlt, dstMac, srcMac, PartyAt(c, side).ip, PartyAt(c, Other(side)).ip, seg)
    {
      FramesCarrySegments(c, acts, seg, dlt, dstMac, srcMac);
    }
    hide Reach, BuildFrame, DecodeFrame;
  }

  /** Every run's segments survive packing and parsing if and only if neither side
      advertises an MSS that does not fit an IPv4 packet. */
  lemma FramesCarryIff(c: Config)
    requires Usable(c)
    ensures FittingMss(c) <==> forall acts, side :: SmallSys(Reach(c, acts)) ==> AllCarried(c, acts, side)
  {
    if FittingMss(c) {
      forall acts, side | SmallSys(Reach(c, acts)) ensures AllCarried(c, acts, side) { FittingCarries(c, acts, side); }
    } else {
      var side := if c.mssB % 0x1_0000 > MAX_MSS then A else B;
      NotCarried(c, side);
      assert SmallSys(Reach(c, Oversize(side)));
    }
    hide Reach, AllCarried, SmallSys, Oversize;
  }

  lemma NotCarried(c: Config, side: Side)
    requires PartyAt(c, Other(side)).mss % 0x1_0000 > MAX_MSS
    ensures SmallSys(Reach(c, Oversize(side))) && !AllCarried(c, Oversize(side), side)
  {
    var seg := OversizedBlock(c, side);
    BuildFrameIff(DLT_NULL, [], [], PartyAt(c, side).ip, PartyAt(c, Other(side)).ip, seg);
    assert Supported(DLT_NULL, [], []) && !Carried(DLT_NULL, [], [], PartyAt(c, side).ip, PartyAt(c, Other(side)).ip, seg);
    hide Reach, BuildFrame, DecodeFrame, Fits, Oversize;
  }
}
