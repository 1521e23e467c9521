/** Two connections joined by a network that loses, duplicates and reorders.

    Everything sent is remembered, so a late or duplicated copy can arrive at any
    time; flight holds the copies still under way, so loss can be told apart
    from delay.  A run is a list of actions, of any length and in any order. */
module TcpNetwork {
  import opened Bytes
  import opened SeqArith
  import opened Segment
  import opened TcpMachine

  /** One endpoint, with the bytes the application has written and has read out. */
  datatype Node = Node(tcb: Tcb, written: bytes, popped: bytes, started: bool)
  {
    /** Every byte this side has taken from its peer, in order. */
    function Received(): bytes { popped + tcb.readBuf }
  }

  datatype Channel = Channel(sent: set<TcpSegment>, flight: seq<TcpSegment>)

  datatype Side = A | B

  datatype Sys = Sys(a: Node, b: Node, ab: Channel, ba: Channel)
  {
    function Flip(): Sys { Sys(b, a, ba, ab) }

    /** The system with the given side first. */
    function From(side: Side): Sys { if side == A then this else Flip() }
  }

  datatype Action =
    | DoOpenActive(side: Side, iss: nat)
    | DoOpenListen(side: Side)
    | DoWrite(side: Side, data: bytes)
    | DoClose(side: Side)
    | DoPopRead(side: Side, n: Option<nat>)
    | DoRetransmit(side: Side)
      // the i-th copy in flight arrives
    | Deliver(side: Side, i: nat, iss: nat)
      // another copy of anything ever sent arrives
    | Redeliver(side: Side, seg: TcpSegment, iss: nat)
    | Drop(side: Side, i: nat)
      // a third party's segment arrives: from another address, or a forged RST
    | Inject(side: Side, seg: TcpSegment, srcIp: Ip)

  datatype Config = Config(ipA: Ip, portA: nat, mssA: nat, ipB: Ip, portB: nat, mssB: nat)

  function Start(c: Config): Sys {
    var nothing := Channel({}, []);
    Sys(Node(Init(c.ipA, c.portA, c.mssA), [], [], false), Node(Init(c.ipB, c.portB, c.mssB), [], [], false),
        nothing, nothing)
  }

  /** conn.py's flush: queued segments leave, unless there is no peer to send them to. */
  function Flush(n: Node, tcb: Tcb, out: Channel): (Node, Channel) {
    (n.(tcb := tcb.(outbox := [])),
     if tcb.remoteIp == None then out
     else Channel(out.sent + (set s | s in tcb.outbox), out.flight + tcb.outbox))
  }

  function Without(s: seq<TcpSegment>, i: nat): seq<TcpSegment>
    requires i < |s|
  {
    s[..i] + s[i + 1..]
  }

  function Receive(m: Arith, n: Node, seg: TcpSegment, srcIp: Ip, iss: nat, out: Channel): (Node, Channel) {
    Flush(n, OnSegment(m, n.tcb, seg, srcIp, iss).0, out)
  }

  predicate Foreign(n: Node, peer: Node, seg: TcpSegment, srcIp: Ip) {
    seg.flags.rst || (n.tcb.state != LISTEN && (seg.srcPort != peer.tcb.localPort || srcIp != peer.tcb.localIp))
  }

  /** The action at endpoint n, whose peer is peer; an action that cannot happen changes nothing. */
  function Act(m: Arith, n: Node, peer: Node, out: Channel, inp: Channel, act: Action): (Node, Channel, Channel) {
    match act
    case DoOpenActive(_, iss) =>
      (match OpenActive(m, n.tcb, peer.tcb.localIp, peer.tcb.localPort, iss)
       case Ok(t) =>
         if n.started || iss >= M32 then (n, out, inp)
         else var (n', out') := Flush(n.(started := true), t, out); (n', out', inp)
       case _ => (n, out, inp))
    case DoOpenListen(_) =>
      (match OpenListen(n.tcb)
       case Ok(t) => if n.started then (n, out, inp) else (n.(tcb := t, started := true), out, inp)
       case _ => (n, out, inp))
    case DoWrite(_, data) =>
      (match Write(m, n.tcb, data)
       case Ok(t) => var (n', out') := Flush(n.(written := n.written + data), t, out); (n', out', inp)
       case _ => (n, out, inp))
    case DoClose(_) =>
      var (n', out') := Flush(n, Close(m, n.tcb), out); (n', out', inp)
    case DoPopRead(_, k) =>
      var (bytes, t) := PopRead(n.tcb, k); (n.(tcb := t, popped := n.popped + bytes), out, inp)
    case DoRetransmit(_) =>
      var (n', out') := Flush(n, Retransmit(m, n.tcb), out); (n', out', inp)
    case Deliver(_, i, iss) =>
      if i >= |inp.flight| || iss >= M32 then (n, out, inp)
      else
        var (n', out') := Receive(m, n, inp.flight[i], peer.tcb.localIp, iss, out);
        (n', out', inp.(flight := Without(inp.flight, i)))
    case Redeliver(_, seg, iss) =>
      if seg !in inp.sent || iss >= M32 then (n, out, inp)
      else var (n', out') := Receive(m, n, seg, peer.tcb.localIp, iss, out); (n', out', inp)
    case Drop(_, i) =>
      if i >= |inp.flight| then (n, out, inp) else (n, out, inp.(flight := Without(inp.flight, i)))
    case Inject(_, seg, srcIp) =>
      if !Foreign(n, peer, seg, srcIp) then (n, out, inp)
      else var (n', out') := Receive(m, n, seg, srcIp, 0, out); (n', out', inp)
  }

  function ActA(m: Arith, s: Sys, act: Action): Sys {
    var (a, ab, ba) := Act(m, s.a, s.b, s.ab, s.ba, act);
    Sys(a, s.b, ab, ba)
  }

  function Step(m: Arith, s: Sys, act: Action): Sys {
    if act.side == A then ActA(m, s, act) else ActA(m, s.Flip(), act).Flip()
  }

  function Run(m: Arith, s: Sys, acts: seq<Action>): Sys {
    if acts == [] then s else Step(m, Run(m, s, acts[..|acts| - 1]), acts[|acts| - 1])
  }
}
