/** The handshake of a client and a listener on a network that delivers in order, step
    by step: the beginning of the example runs. */
module TcpHandshake {
  import opened Bytes
  import opened SeqArith
  import opened Segment
  import opened TcpMachine
  import opened TcpNetwork
  import opened TcpTheorems

  datatype Party = Party(ip: Ip, port: nat, mss: nat)

  function PartyAt(c: Config, side: Side): Party {
    if side == A then Party(c.ipA, c.portA, c.mssA) else Party(c.ipB, c.portB, c.mssB)
  }

  function Other(side: Side): Side { if side == A then B else A }

  /** The given side connects, the other listens; both draw the ISS 0. */
  function Opening(side: Side): seq<Action> {
    [DoOpenListen(Other(side)), DoOpenActive(side, 0),
     Deliver(Other(side), 0, 0),    // the SYN
     Deliver(side, 0, 0)]           // the SYN+ACK; the client answers with an ACK
  }

  // --- The client and the server at each stage, outboxes empty -----------------------------

  function Fresh(me: Party): Tcb { Init(me.ip, me.port, me.mss) }
  function Client1(me: Party, peer: Party): Tcb {
    Fresh(me).(remoteIp := Some(peer.ip), remotePort := peer.port, state := SYN_SENT, sndNxt := 1)
  }
  function Client2(me: Party, peer: Party): Tcb {
    Client1(me, peer).(state := ESTABLISHED, sndUna := 1, rcvNxt := 1, peerMss := AdoptedMss(peer.mss))
  }
  function Server1(me: Party): Tcb { Fresh(me).(state := LISTEN) }
  function Server2(me: Party, peer: Party): Tcb {
    Server1(me).(remoteIp := Some(peer.ip), remotePort := peer.port, state := SYN_RECEIVED, sndNxt := 1, rcvNxt := 1,
                 peerMss := AdoptedMss(peer.mss))
  }

  function Seg(from: Party, to: Party, seqNo: nat, ackNo: nat, flags: Flags, payload: bytes): TcpSegment {
    TcpSegment(from.port, to.port, seqNo, ackNo, flags, 65535, if flags.syn then BuildMssOption(from.mss) else [], payload, 0)
  }

  lemma ClientOpens(me: Party, peer: Party)
    ensures OpenActive(Mod32, Fresh(me), peer.ip, peer.port, 0)
         == Ok(Client1(me, peer).(outbox := [Seg(me, peer, 0, 0, SYN, [])]))
  {
    assert OpenActive(Mod32, Fresh(me), peer.ip, peer.port, 0).value.outbox
        == [] + [Seg(me, peer, 0, 0, SYN, [])] == [Seg(me, peer, 0, 0, SYN, [])];
  }

  lemma LatchesMss(t: Tcb, from: Party, to: Party, ackNo: nat, flags: Flags)
    requires flags.syn
    ensures Latch(Mod32, t, Seg(from, to, 0, ackNo, flags, [])) == t.(irs := 0, rcvNxt := 1, peerMss := AdoptedMss(from.mss))
  {
    MssOptionParses(from.mss);
  }

  lemma ServerTakesSyn(me: Party, peer: Party)
    ensures OnSegment(Mod32, Server1(me), Seg(peer, me, 0, 0, SYN, []), peer.ip, 0).0
         == Server2(me, peer).(outbox := [Seg(me, peer, 0, 1, SYN_ACK, [])])
  {
    LatchesMss(Server1(me), peer, me, 0, SYN);
    hide Latch, OnSynSent, OnSynReceived, OnEstablished;
    assert [] + [Seg(me, peer, 0, 1, SYN_ACK, [])] == [Seg(me, peer, 0, 1, SYN_ACK, [])];
  }

  lemma ClientTakesSynAck(me: Party, peer: Party)
    ensures OnSegment(Mod32, Client1(me, peer), Seg(peer, me, 0, 1, SYN_ACK, []), peer.ip, 0).0
         == Client2(me, peer).(outbox := [Seg(me, peer, 1, 1, ACK, [])])
  {
    LatchesMss(Client1(me, peer), peer, me, 1, SYN_ACK);
    hide Latch, OnListen, OnSynReceived, OnEstablished;
    assert [] + [Seg(me, peer, 1, 1, ACK, [])] == [Seg(me, peer, 1, 1, ACK, [])];
  }

  // --- Steps --------------------------------------------------------------------------------

  lemma RunSnoc(s: Sys, acts: seq<Action>, act: Action)
    ensures Run(Mod32, s, acts + [act]) == Step(Mod32, Run(Mod32, s, acts), act)
  {
    assert (acts + [act])[..|acts|] == acts;
  }

  /** One delivery, seen from the side it arrives at. */
  lemma DeliverStep(s: Sys, side: Side, i: nat, t': Tcb, out: seq<TcpSegment>)
    requires var r := s.From(side);
             i < |r.ba.flight| && OnSegment(Mod32, r.a.tcb, r.ba.flight[i], r.b.tcb.localIp, 0).0 == t'.(outbox := out)
    requires t'.outbox == [] && t'.remoteIp != None
    ensures var r, q := s.From(side), Step(Mod32, s, Deliver(side, i, 0)).From(side);
            && q.a == r.a.(tcb := t') && q.b == r.b
            && q.ab.flight == r.ab.flight + out && q.ba.flight == Without(r.ba.flight, i)
  {
    hide OnSegment;
  }

  /** The same system seen from the other side. */
  lemma Turned(s: Sys, side: Side)
    ensures s.From(Other(side)) == s.From(side).Flip()
  {
  }

  lemma Opened(c: Config, side: Side) returns (s: Sys)
    ensures s == Reach(c, Opening(side)[..2])
    ensures var r, me, peer := s.From(side), PartyAt(c, side), PartyAt(c, Other(side));
            && r.a == Node(Client1(me, peer), [], [], true) && r.b == Node(Server1(peer), [], [], true)
            && r.ab.flight == [Seg(me, peer, 0, 0, SYN, [])] && r.ba.flight == []
  {
    var acts := Opening(side);
    var s0 := Start(c);
    var s1 := Step(Mod32, s0, acts[0]);
    ClientOpens(PartyAt(c, side), PartyAt(c, Other(side)));
    s := Step(Mod32, s1, acts[1]);
    RunSnoc(s0, [], acts[0]);
    RunSnoc(s0, acts[..1], acts[1]);
    assert acts[..1] == [] + [acts[0]] && acts[..2] == acts[..1] + [acts[1]];
    hide OpenActive;
  }

  lemma Handshake(c: Config, side: Side) returns (s: Sys)
    ensures s == Reach(c, Opening(side))
    ensures var r, me, peer := s.From(side), PartyAt(c, side), PartyAt(c, Other(side));
            && r.a == Node(Client2(me, peer), [], [], true) && r.b == Node(Server2(peer, me), [], [], true)
            && r.ab.flight == [Seg(me, peer, 1, 1, ACK, [])] && r.ba.flight == []
  {
    var s2 := Opened(c, side);
    var s3 := Step(Mod32, s2, Deliver(Other(side), 0, 0));
    s := Step(Mod32, s3, Deliver(side, 0, 0));
    LastTwo(c, side);
    hide *;
    Answers(c, side, s2, s3, s);
  }

  lemma LastTwo(c: Config, side: Side)
    ensures Reach(c, Opening(side))
         == Step(Mod32, Step(Mod32, Reach(c, Opening(side)[..2]), Deliver(Other(side), 0, 0)), Deliver(side, 0, 0))
  {
    var acts := Opening(side);
    assert acts[..3] == acts[..2] + [acts[2]] && acts == acts[..3] + [acts[3]];
    RunSnoc(Start(c), acts[..2], acts[2]);
    RunSnoc(Start(c), acts[..3], acts[3]);
    hide Run, Step, Start;
  }

  /** The SYN is answered, and the answer acknowledged. */
  lemma Answers(c: Config, side: Side, s2: Sys, s3: Sys, s: Sys)
    requires var r, me, peer := s2.From(side), PartyAt(c, side), PartyAt(c, Other(side));
             && r.a == Node(Client1(me, peer), [], [], true) && r.b == Node(Server1(peer), [], [], true)
             && r.ab.flight == [Seg(me, peer, 0, 0, SYN, [])] && r.ba.flight == []
    requires s3 == Step(Mod32, s2, Deliver(Other(side), 0, 0)) && s == Step(Mod32, s3, Deliver(side, 0, 0))
    ensures var r, me, peer := s.From(side), PartyAt(c, side), PartyAt(c, Other(side));
            && r.a == Node(Client2(me, peer), [], [], true) && r.b == Node(Server2(peer, me), [], [], true)
            && r.ab.flight == [Seg(me, peer, 1, 1, ACK, [])] && r.ba.flight == []
  {
    hide OnSegment, Act, Run, Step;
    var me, peer := PartyAt(c, side), PartyAt(c, Other(side));
    Turned(s2, side);
    Turned(s3, side);
    ServerTakesSyn(peer, me);
    DeliverStep(s2, Other(side), 0, Server2(peer, me), [Seg(peer, me, 0, 1, SYN_ACK, [])]);
    ClientTakesSynAck(me, peer);
    DeliverStep(s3, side, 0, Client2(me, peer), [Seg(me, peer, 1, 1, ACK, [])]);
  }
}
