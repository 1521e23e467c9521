/** From the connection's outbox to frames on the wire, and from frames back to segments. */
module Connection {
  import opened Bytes
  import opened SeqArith
  import opened Segment
  import opened Ipv4
  import opened TcpCodec
  import opened Link
  import M = TcpMachine
  import opened TcpMachine
  import opened TcpState

  /** Which connection a segment belongs to, from the receiver's side. */
  datatype FourTuple = FourTuple(localIp: Ip, localPort: nat, remoteIp: Ip, remotePort: nat)

  datatype Arrival = Arrival(seg: TcpSegment, srcIp: Ip, dstIp: Ip)

  predicate MatchInbound(a: Arrival, ft: FourTuple) {
    a.dstIp == ft.localIp && a.srcIp == ft.remoteIp && a.seg.dstPort == ft.localPort && a.seg.srcPort == ft.remotePort
  }

  /** One queued segment as a frame: TCP in IPv4 in the link layer. */
  function BuildFrame(dlt: nat, dstMac: bytes, srcMac: bytes, localIp: Ip, remoteIp: Ip, seg: TcpSegment): (r: Result<bytes>) {
    if localIp >= 0x1_0000_0000 || remoteIp >= 0x1_0000_0000 then ValueError
    else
      match PackTcp(seg, V4(U32(localIp), U32(remoteIp)))
      case Ok(tcp) =>
        (match PackIpv4(U32(localIp), U32(remoteIp), PROTO_TCP, tcp, DEFAULT_FIELDS)
         case Ok(packet) => WrapLinkLayer(dlt, ETH_TYPE_IPV4, dstMac, srcMac, packet)
         case ValueError => ValueError
         case StructError => StructError)
      case ValueError => ValueError
      case StructError => StructError
  }

  /** The segment in a captured frame, if it is one for this host; anything else is ignored. */
  function DecodeFrame(dlt: nat, localIp: Ip, frame: bytes): (r: Option<Arrival>) {
    match StripLinkLayer(dlt, frame)
    case Ok(link) =>
      if link.0 != ETH_TYPE_IPV4 then None
      else
        (match ParseIpv4(link.1)
         case Ok(ip) =>
           if ip.0.proto != PROTO_TCP then None
           else
             (match ParseTcp(ip.1)
              case Ok(tcp) =>
                if ToU32(ip.0.dst) != localIp then None
                else Some(Arrival(tcp.seg, ToU32(ip.0.src), localIp))
              case _ => None)
         case _ => None)
    case _ => None
  }

  /** Before a peer is known a listener takes anything for its port; then only that peer counts. */
  predicate Routed(state: State, localPort: nat, ft: Option<FourTuple>, a: Arrival) {
    match ft
    case Some(t) => MatchInbound(a, t)
    case None => state in {LISTEN, CLOSED} && a.seg.dstPort == localPort
  }

  /** What flushing a queue puts on the wire; an exception loses the segment it hits and keeps the rest. */
  function Frames(dlt: nat, dstMac: bytes, srcMac: bytes, localIp: Ip, remoteIp: Ip, queue: seq<TcpSegment>)
    : (r: (seq<bytes>, seq<TcpSegment>, bool))
  {
    if queue == [] then ([], [], true)
    else
      match BuildFrame(dlt, dstMac, srcMac, localIp, remoteIp, queue[0])
      case Ok(frame) =>
        var (frames, left, ok) := Frames(dlt, dstMac, srcMac, localIp, remoteIp, queue[1..]); ([frame] + frames, left, ok)
      case _ => ([], queue[1..], false)
  }

  type Outcome = (seq<bytes>, seq<TcpSegment>, bool)

  ghost predicate SentSoFar(all: Outcome, sent: seq<bytes>, rest: Outcome) {
    all.0 == sent + rest.0 && all.1 == rest.1 && all.2 == rest.2
  }

  lemma SentNothing(all: Outcome)
    ensures SentSoFar(all, [], all)
  {
    assert [] + all.0 == all.0;
  }

  lemma SentMore(all: Outcome, sent: seq<bytes>, rest: Outcome, more: bool, frames: seq<bytes>, rest': Outcome, tail: seq<TcpSegment>)
    requires SentSoFar(all, sent, rest)
    requires rest == if more then (frames + rest'.0, rest'.1, rest'.2) else ([], tail, false)
    ensures if more then SentSoFar(all, sent + frames, rest') else all == (sent, tail, false)
  {
    Regroup(sent, frames, rest'.0);
    assert sent + [] == sent;
  }

  lemma Regroup(a: seq<bytes>, b: seq<bytes>, c: seq<bytes>)
    ensures a + b + c == a + (b + c)
  {
  }

  lemma SentAll(all: Outcome, sent: seq<bytes>)
    requires SentSoFar(all, sent, ([], [], true))
    ensures all == (sent, [], true)
  {
    assert sent + [] == sent;
  }

  class Connection {
    const state: TcpState
    const dlt: nat
    const localMac: bytes
    const peerMac: bytes
    var ft: Option<FourTuple>
    var wire: seq<bytes>

    constructor (state: TcpState, dlt: nat, localMac: bytes, peerMac: bytes, ft: Option<FourTuple>)
      ensures this.state == state && this.dlt == dlt && this.localMac == localMac && this.peerMac == peerMac
      ensures this.ft == ft && wire == []
    {
      this.state, this.dlt, this.localMac, this.peerMac := state, dlt, localMac, peerMac;
      this.ft, wire := ft, [];
    }

    /** Sends everything queued, in order; without a peer the queue is dropped. */
    method FlushOutbox() returns (ok: bool)
      modifies this`wire, state
      ensures var t := old(state.Value());
              var (frames, left, done) := FramesOf(t.remoteIp, t.outbox);
              ok == done && wire == old(wire) + frames && state.Value() == t.(outbox := left)
    {
      ghost var t := state.Value();
      ghost var sent := [];
      ghost var all := FramesOf(t.remoteIp, t.outbox);
      hide FramesOf, SentSoFar;
      SentNothing(all);
      while state.outbox != []
        invariant state.Value() == t.(outbox := state.outbox) && wire == old(wire) + sent
        invariant SentSoFar(all, sent, FramesOf(t.remoteIp, state.outbox))
        decreases |state.outbox|
      {
        ghost var queue := state.outbox;
        var more, frames := SendFirst();
        Regroup(old(wire), sent, frames);
        SentMore(all, sent, FramesOf(t.remoteIp, queue), more, frames, FramesOf(t.remoteIp, queue[1..]), queue[1..]);
        if !more {
          return false;
        }
        sent := sent + frames;
      }
      FramesStep(t.remoteIp, []);
      SentAll(all, sent);
      return true;
    }

    /** Takes one segment off the queue and sends it; false when packing it raises. */
    method SendFirst() returns (ok: bool, ghost frames: seq<bytes>)
      requires state.outbox != []
      modifies this`wire, state
      ensures var t := old(state.Value());
              && state.Value() == t.(outbox := t.outbox[1..]) && wire == old(wire) + frames
              && var rest := FramesOf(t.remoteIp, t.outbox[1..]);
              FramesOf(t.remoteIp, t.outbox) == if ok then (frames + rest.0, rest.1, rest.2) else ([], t.outbox[1..], false)
      ensures !ok ==> frames == []
    {
      frames := [];
      FramesStep(state.remoteIp, state.outbox);
      hide FramesOf, BuildFrame;
      var seg := state.outbox[0];
      state.outbox := state.outbox[1..];
      if state.remoteIp == None {
        assert frames + FramesOf(None, state.outbox).0 == FramesOf(None, state.outbox).0;
        return true, frames;
      }
      var frame := BuildFrame(dlt, peerMac, localMac, state.localIp, state.remoteIp.value, seg);
      if !frame.Ok? {
        return false, frames;
      }
      wire := wire + [frame.value];
      frames := [frame.value];
      return true, frames;
    }

    // What flushing a queue sends; nothing without a peer.
    ghost function FramesOf(remoteIp: Option<Ip>, queue: seq<TcpSegment>): (seq<bytes>, seq<TcpSegment>, bool) {
      if remoteIp == None then ([], [], true) else Frames(dlt, peerMac, localMac, state.localIp, remoteIp.value, queue)
    }

    lemma FramesStep(remoteIp: Option<Ip>, queue: seq<TcpSegment>)
      ensures queue == [] ==> FramesOf(remoteIp, queue) == ([], [], true)
      ensures queue != [] && remoteIp == None ==> FramesOf(remoteIp, queue) == FramesOf(remoteIp, queue[1..])
      ensures queue != [] && remoteIp != None ==>
                var frame := BuildFrame(dlt, peerMac, localMac, state.localIp, remoteIp.value, queue[0]);
                var rest := FramesOf(remoteIp, queue[1..]);
                FramesOf(remoteIp, queue) == if frame.Ok? then ([frame.value] + rest.0, rest.1, rest.2) else ([], queue[1..], false)
    {
      hide BuildFrame;
    }

    /** One captured frame: at most one segment reaches the state machine. */
    method ProcessFrame(frame: bytes, drawn: nat)
      modifies this`ft, state
      ensures var t := old(state.Value());
              match DecodeFrame(dlt, t.localIp, frame)
              case None => state.Value() == t && ft == old(ft)
              case Some(a) =>
                if !Routed(t.state, t.localPort, old(ft), a) then state.Value() == t && ft == old(ft)
                else
                  var (t', accepted) := M.OnSegment(Mod32, t, a.seg, a.srcIp, drawn);
                  && state.Value() == t'
                  && ft == if accepted && old(ft) == None then Some(FourTuple(t.localIp, t.localPort, a.srcIp, a.seg.srcPort))
                           else old(ft)
    {
      var decoded := DecodeFrame(dlt, state.localIp, frame);
      match decoded {
        case None =>
        case Some(a) =>
          if !Routed(state.state, state.localPort, ft, a) {
            return;
          }
          var accepted := state.OnSegment(a.seg, a.srcIp, drawn);
          if accepted && ft == None {
            ft := Some(FourTuple(state.localIp, state.localPort, a.srcIp, a.seg.srcPort));
          }
      }
    }
  }

  predicate Supported(dlt: nat, dstMac: bytes, srcMac: bytes) {
    dlt == DLT_NULL || dlt == DLT_LOOP || (dlt == DLT_EN10MB && |dstMac| == 6 && |srcMac| == 6)
  }

  /** What fits a frame: fields in range, at most 40 octets of options, and the IPv4 length limit. */
  predicate Fits(seg: TcpSegment) {
    FieldsFit(seg) && |seg.options| <= 40 && 40 + |PadOptions(seg.options)| + |seg.payload| < 0x1_0000
  }

  lemma BuildFrameIff(dlt: nat, dstMac: bytes, srcMac: bytes, localIp: Ip, remoteIp: Ip, seg: TcpSegment)
    ensures BuildFrame(dlt, dstMac, srcMac, localIp, remoteIp, seg).Ok?
       <==> localIp < 0x1_0000_0000 && remoteIp < 0x1_0000_0000 && Fits(seg) && Supported(dlt, dstMac, srcMac)
  {
    hide FieldsFit, SegmentBytes, HeaderBytes;
  }

  /** The whole stack: what the peer decodes is the segment that was queued, its options
      padded with NOPs, on every datalink and however short the frame. */
  lemma FrameRoundTrip(dlt: nat, dstMac: bytes, srcMac: bytes, localIp: Ip, remoteIp: Ip, seg: TcpSegment)
    requires BuildFrame(dlt, dstMac, srcMac, localIp, remoteIp, seg).Ok?
    ensures DecodeFrame(dlt, remoteIp, BuildFrame(dlt, dstMac, srcMac, localIp, remoteIp, seg).value)
         == Some(Arrival(seg.(options := PadOptions(seg.options)), localIp, remoteIp))
  {
    var src: Ip4, dst: Ip4 := U32(localIp), U32(remoteIp);
    var tcp := PackTcp(seg, V4(src, dst)).value;
    var packet := PackIpv4(src, dst, PROTO_TCP, tcp, DEFAULT_FIELDS).value;
    TcpRoundTrip(seg, V4(src, dst));
    Ipv4RoundTrip(src, dst, PROTO_TCP, tcp, DEFAULT_FIELDS, Padding(dlt, packet));
    StripWrap(dlt, ETH_TYPE_IPV4, dstMac, srcMac, packet);
    hide PackTcp, PackIpv4, WrapLinkLayer, ParseTcp, ParseIpv4, StripLinkLayer, U32, Padding, PadOptions;
  }

  /** A connection bound to a peer takes that peer's frames and no other connection's. */
  lemma FrameReachesItsConnection(dlt: nat, dstMac: bytes, srcMac: bytes, from: FourTuple, seg: TcpSegment, to: FourTuple, state: State)
    requires BuildFrame(dlt, dstMac, srcMac, from.localIp, from.remoteIp, seg).Ok?
    requires seg.srcPort == from.localPort && seg.dstPort == from.remotePort
    ensures var r := DecodeFrame(dlt, to.localIp, BuildFrame(dlt, dstMac, srcMac, from.localIp, from.remoteIp, seg).value);
            (r.Some? && Routed(state, to.localPort, Some(to), r.value))
            <==> to == FourTuple(from.remoteIp, from.remotePort, from.localIp, from.localPort)
  {
    var frame := BuildFrame(dlt, dstMac, srcMac, from.localIp, from.remoteIp, seg).value;
    FrameRoundTrip(dlt, dstMac, srcMac, from.localIp, from.remoteIp, seg);
    if to.localIp != from.remoteIp {
      OnlyForThisHost(dlt, to.localIp, from.remoteIp, frame);
    }
    hide BuildFrame, DecodeFrame, PadOptions;
  }

  lemma OnlyForThisHost(dlt: nat, ip: Ip, ip': Ip, frame: bytes)
    requires DecodeFrame(dlt, ip', frame).Some? && ip != ip'
    ensures DecodeFrame(dlt, ip, frame) == None
  {
    hide StripLinkLayer, ParseIpv4, ParseTcp, ToU32;
  }
}
