/** A run in which the FIN overtakes the only data segment: one byte is written,
    emitted and counted as acknowledged, the FIN is consumed, and the byte never
    arrives.  Nothing is lost on the way; one segment is late. */
module TcpOvertake {
  import opened Bytes
  import opened SeqArith
  import opened Segment
  import opened TcpMachine
  import opened TcpNetwork
  import opened TcpInvariant
  import opened TcpTheorems
  import opened TcpHandshake
  import opened TcpSimulation
  import opened TcpEndOfStream

  const C := Config(1, 10, 1460, 2, 20, 1460)

  // A data segment and a FIN join the ACK in flight.
  const SENT: seq<Action> := Opening(A) + [DoWrite(A, [7])] + [DoClose(A)]

  // The FIN arrives first, then b's ACK of it.
  const ACTS: seq<Action> := SENT + [Deliver(B, 2, 0)] + [Deliver(A, 0, 0)]

  const CLIENT := Party(1, 10, 1460)
  const SERVER := Party(2, 20, 1460)

  // The stages after the handshake.
  function Client3(): Tcb {
    Client2(CLIENT, SERVER).(sndNxt := 2, unackedData := [7], unackedSeq := 1, haveUnacked := true)
  }
  function Client4(): Tcb { Client3().(sndNxt := 3, state := FIN_WAIT_1, finSent := true) }
  function Client5(): Tcb { Client4().(sndUna := 2, unackedData := [], haveUnacked := false) }
  function Server3(): Tcb {
    Server2(SERVER, CLIENT).(state := CLOSE_WAIT, sndUna := 1, rcvNxt := 2, finReceived := true)
  }

  function FirstAck(): TcpSegment { Seg(CLIENT, SERVER, 1, 1, ACK, []) }
  function Data(): TcpSegment { Seg(CLIENT, SERVER, 1, 1, ACK_PSH, [7]) }
  function Fin(): TcpSegment { Seg(CLIENT, SERVER, 2, 1, FIN_ACK, []) }
  function FinsAck(): TcpSegment { Seg(SERVER, CLIENT, 1, 2, ACK, []) }

  lemma ClientWrites()
    ensures Write(Mod32, Client2(CLIENT, SERVER), [7]) == Ok(Client3().(outbox := [Data()]))
  {
    var data: bytes := [7];
    assert [] + data == data && data[..1] == data && data[1..] == [];
    assert [] + [Data()] == [Data()];
    assert Write(Mod32, Client2(CLIENT, SERVER), data).value.outbox == [] + [Data()];
  }

  lemma ClientCloses()
    ensures Close(Mod32, Client3()) == Client4().(outbox := [Fin()])
  {
  }

  lemma ServerTakesFin()
    ensures OnSegment(Mod32, Server2(SERVER, CLIENT), Fin(), 1, 0).0 == Server3().(outbox := [FinsAck()])
  {
    hide OnListen, OnSynSent, OnEstablished;
  }

  lemma ClientTakesAck()
    ensures OnSegment(Mod32, Client4(), FinsAck(), 2, 0).0 == Client5()
  {
    hide OnListen, OnSynSent, OnSynReceived;
  }

  lemma WriteAndClose() returns (s: Sys)
    ensures s == Reach(C, SENT)
    ensures s.a == Node(Client4(), [7], [], true) && s.b == Node(Server2(SERVER, CLIENT), [], [], true)
    ensures s.ab.flight == [FirstAck(), Data(), Fin()] && s.ba.flight == []
  {
    var s4 := Handshake(C, A);
    var s5 := Step(Mod32, s4, DoWrite(A, [7]));
    s := Step(Mod32, s5, DoClose(A));
    RunSnoc(Start(C), Opening(A), DoWrite(A, [7]));
    RunSnoc(Start(C), Opening(A) + [DoWrite(A, [7])], DoClose(A));
    assert PartyAt(C, A) == CLIENT && PartyAt(C, B) == SERVER;
    hide Run, Step, Opening, Client2, Server2;
    UserSteps(s4, s5, s);
  }

  lemma UserSteps(s4: Sys, s5: Sys, s: Sys)
    requires s4.a == Node(Client2(CLIENT, SERVER), [], [], true) && s4.b == Node(Server2(SERVER, CLIENT), [], [], true)
    requires s4.ab.flight == [FirstAck()] && s4.ba.flight == []
    requires s5 == Step(Mod32, s4, DoWrite(A, [7])) && s == Step(Mod32, s5, DoClose(A))
    ensures s.a == Node(Client4(), [7], [], true) && s.b == Node(Server2(SERVER, CLIENT), [], [], true)
    ensures s.ab.flight == [FirstAck(), Data(), Fin()] && s.ba.flight == []
  {
    hide Write, Close;
    ClientWrites();
    assert s5.a.tcb == Client3();
    ClientCloses();
  }

  lemma LateDelivery() returns (s: Sys)
    ensures s == Reach(C, ACTS)
    ensures s.a == Node(Client5(), [7], [], true) && s.b == Node(Server3(), [], [], true)
    ensures s.ab.flight == [FirstAck(), Data()]
  {
    var s6 := WriteAndClose();
    var s7 := Step(Mod32, s6, Deliver(B, 2, 0));
    s := Step(Mod32, s7, Deliver(A, 0, 0));
    RunSnoc(Start(C), SENT, Deliver(B, 2, 0));
    RunSnoc(Start(C), SENT + [Deliver(B, 2, 0)], Deliver(A, 0, 0));
    hide Run, Step, Opening, Client5, Server3;
    LastSteps(s6, s7, s);
  }

  lemma LastSteps(s6: Sys, s7: Sys, s: Sys)
    requires s6.a == Node(Client4(), [7], [], true) && s6.b == Node(Server2(SERVER, CLIENT), [], [], true)
    requires s6.ab.flight == [FirstAck(), Data(), Fin()] && s6.ba.flight == []
    requires s7 == Step(Mod32, s6, Deliver(B, 2, 0)) && s == Step(Mod32, s7, Deliver(A, 0, 0))
    ensures s.a == Node(Client5(), [7], [], true) && s.b == Node(Server3(), [], [], true)
    ensures s.ab.flight == [FirstAck(), Data()]
  {
    hide OnSegment, Step;
    ServerTakesFin();
    DeliverStep(s6, B, 2, Server3(), [FinsAck()]);
    ClientTakesAck();
    assert Client5() == Client5().(outbox := []);
    DeliverStep(s7, A, 0, Client5(), []);
  }

  /** The byte is gone: b has taken a's FIN and nothing else, a counts the byte as
      acknowledged and will not send it again, and no segment was dropped. */
  lemma FinOvertakesData()
    ensures var s := Reach(C, ACTS);
            && s.a.written == [7] && s.a.tcb.sendBuf == [] && !s.a.tcb.haveUnacked
            && s.b.tcb.finReceived && s.b.Received() == []
    ensures forall k :: 0 <= k < |ACTS| ==> !ACTS[k].Drop?
  {
    var s := LateDelivery();
    hide Reach;
  }

  /** The byte never arrives, whatever happens next; the late segment that carries it is refused. */
  lemma ByteNeverArrives(more: seq<Action>)
    requires SmallSys(Reach(C, ACTS + more))
    ensures Reach(C, ACTS + more).b.Received() == []
  {
    FinOvertakesData();
    hide Reach;
    FinEndsStream(C, ACTS, more, B);
  }
}
