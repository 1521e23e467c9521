/** Two runs that lose what is still in the send buffer, though the network loses nothing.

    In the first the side that writes closes; every segment arrives, in order, and
    the FIN is acknowledged.  In the second its peer closes first. */
module TcpUnsent {
  import opened Bytes
  import opened SeqArith
  import opened Segment
  import opened TcpMachine
  import opened TcpNetwork
  import opened TcpInvariant
  import opened TcpTheorems
  import opened TcpHandshake
  import opened TcpOvertake
  import opened TcpStaleBlock

  // The second byte waits in the send buffer, because the first is outstanding.
  const WROTE: seq<Action> := Opening(A) + [DoWrite(A, [7])] + [DoWrite(A, [8])]

  function Waiting(): Tcb { Client3().(sendBuf := [8]) }

  lemma SecondByteWaits()
    ensures Write(Mod32, Client3(), [8]) == Ok(Waiting())
  {
    var data: bytes := [8];
    assert [] + data == data;
  }

  lemma WroteTwice() returns (s: Sys)
    ensures s == Reach(C, WROTE)
    ensures s.a == Node(Waiting(), [7, 8], [], true) && s.b == Node(Server2(SERVER, CLIENT), [], [], true)
    ensures s.ab.flight == [FirstAck(), Data()] && s.ba.flight == []
  {
    var s4 := Handshake(C, A);
    var s5 := Step(Mod32, s4, DoWrite(A, [7]));
    s := Step(Mod32, s5, DoWrite(A, [8]));
    RunSnoc(Start(C), Opening(A), DoWrite(A, [7]));
    RunSnoc(Start(C), Opening(A) + [DoWrite(A, [7])], DoWrite(A, [8]));
    assert PartyAt(C, A) == CLIENT && PartyAt(C, B) == SERVER;
    hide Run, Step, Opening, Client2, Server2;
    WriteSteps(s4, s5, s);
  }

  lemma WriteSteps(s4: Sys, s5: Sys, s: Sys)
    requires s4.a == Node(Client2(CLIENT, SERVER), [], [], true) && s4.b == Node(Server2(SERVER, CLIENT), [], [], true)
    requires s4.ab.flight == [FirstAck()] && s4.ba.flight == []
    requires s5 == Step(Mod32, s4, DoWrite(A, [7])) && s == Step(Mod32, s5, DoWrite(A, [8]))
    ensures s.a == Node(Waiting(), [7, 8], [], true) && s.b == Node(Server2(SERVER, CLIENT), [], [], true)
    ensures s.ab.flight == [FirstAck(), Data()] && s.ba.flight == []
  {
    hide Write;
    ClientWrites();
    assert s5.a.tcb == Client3();
    SecondByteWaits();
    assert [] + [7] + [8] == [7, 8];
  }

  // --- Closing with a byte still buffered ----------------------------------------------------

  // Then everything in flight arrives, oldest first.
  const CLOSED_EARLY: seq<Action> := WROTE + [DoClose(A)]
  const THREE_IN: seq<Action> := CLOSED_EARLY + [Deliver(B, 0, 0)] + [Deliver(B, 0, 0)] + [Deliver(B, 0, 0)]
  const IN_ORDER: seq<Action> := THREE_IN + [Deliver(A, 0, 0)] + [Deliver(A, 0, 0)]

  function Closing(): Tcb { Client4().(sendBuf := [8]) }
  function ClosingAcked(): Tcb { Closing().(sndUna := 2, unackedData := [], haveUnacked := false) }
  function ClosedForGood(): Tcb { ClosingAcked().(sndUna := 3, state := FIN_WAIT_2) }
  function ServerOpen(): Tcb { Server2(SERVER, CLIENT).(state := ESTABLISHED, sndUna := 1) }

  lemma ClosesEarly()
    ensures Close(Mod32, Waiting()) == Closing().(outbox := [Fin()])
  {
  }

  lemma ServerTakesAck()
    ensures OnSegment(Mod32, Server2(SERVER, CLIENT), FirstAck(), 1, 0).0 == ServerOpen()
  {
    hide OnListen, OnSynSent, OnEstablished;
  }

  lemma OpenServerTakesData()
    ensures OnSegment(Mod32, ServerOpen(), Data(), 1, 0).0 == ServerHasData().(outbox := [DatasAck()])
  {
    assert TakeAck(Mod32, ServerOpen(), Data()) == ServerOpen();
    assert [] + Data().payload == [7];
    assert TakeData(Mod32, ServerOpen(), Data()) == ServerHasData().(outbox := [DatasAck()]);
    assert TakeFin(Mod32, ServerHasData().(outbox := [DatasAck()]), Data()) == ServerHasData().(outbox := [DatasAck()]);
    hide TakeAck, TakeData, TakeFin;
    hide OnListen, OnSynSent, OnSynReceived;
  }

  lemma ClientTakesDatasAck()
    ensures OnSegment(Mod32, Closing(), DatasAck(), 2, 0).0 == ClosingAcked()
  {
    assert TakeAck(Mod32, Closing(), DatasAck()) == ClosingAcked();
    assert TakeData(Mod32, ClosingAcked(), DatasAck()) == ClosingAcked();
    assert TakeFin(Mod32, ClosingAcked(), DatasAck()) == ClosingAcked();
    hide TakeAck, TakeData, TakeFin;
    hide OnListen, OnSynSent, OnSynReceived;
  }

  lemma ClientTakesFinsAck()
    ensures OnSegment(Mod32, ClosingAcked(), BothAcked(), 2, 0).0 == ClosedForGood()
  {
    var t := ClosingAcked().(sndUna := 3);
    assert TakeAck(Mod32, ClosingAcked(), BothAcked()) == t;
    assert TakeData(Mod32, t, BothAcked()) == t;
    assert TakeFin(Mod32, t, BothAcked()) == ClosedForGood();
    hide TakeAck, TakeData, TakeFin;
    hide OnListen, OnSynSent, OnSynReceived;
  }

  lemma CloseEarly() returns (s: Sys)
    ensures s == Reach(C, CLOSED_EARLY)
    ensures s.a == Node(Closing(), [7, 8], [], true) && s.b == Node(Server2(SERVER, CLIENT), [], [], true)
    ensures s.ab.flight == [FirstAck(), Data(), Fin()] && s.ba.flight == []
  {
    var s6 := WroteTwice();
    s := Step(Mod32, s6, DoClose(A));
    RunSnoc(Start(C), WROTE, DoClose(A));
    ClosesEarly();
    hide Run, Close, Server2;
  }

  lemma Arrivals(s7: Sys, s8: Sys, s9: Sys, s10: Sys, s11: Sys, s: Sys)
    requires s7.a == Node(Closing(), [7, 8], [], true) && s7.b == Node(Server2(SERVER, CLIENT), [], [], true)
    requires s7.ab.flight == [FirstAck(), Data(), Fin()] && s7.ba.flight == []
    requires s8 == Step(Mod32, s7, Deliver(B, 0, 0)) && s9 == Step(Mod32, s8, Deliver(B, 0, 0))
    requires s10 == Step(Mod32, s9, Deliver(B, 0, 0)) && s11 == Step(Mod32, s10, Deliver(A, 0, 0))
    requires s == Step(Mod32, s11, Deliver(A, 0, 0))
    ensures s.a == Node(ClosedForGood(), [7, 8], [], true) && s.b == Node(ServerHasFin(), [], [], true)
    ensures s.ab.flight == [] && s.ba.flight == []
  {
    hide OnSegment, Step;
    ServerTakesAck();
    assert ServerOpen() == ServerOpen().(outbox := []);
    DeliverStep(s7, B, 0, ServerOpen(), []);
    OpenServerTakesData();
    DeliverStep(s8, B, 0, ServerHasData(), [DatasAck()]);
    ServerTakesFinInOrder();
    DeliverStep(s9, B, 0, ServerHasFin(), [BothAcked()]);
    hide Server2, Client4;
    ClientTakesDatasAck();
    assert ClosingAcked() == ClosingAcked().(outbox := []);
    DeliverStep(s10, A, 0, ClosingAcked(), []);
    ClientTakesFinsAck();
    assert ClosedForGood() == ClosedForGood().(outbox := []);
    DeliverStep(s11, A, 0, ClosedForGood(), []);
  }

  lemma InOrderRun() returns (s: Sys)
    ensures s == Reach(C, IN_ORDER)
    ensures s.a == Node(ClosedForGood(), [7, 8], [], true) && s.b == Node(ServerHasFin(), [], [], true)
    ensures s.ab.flight == [] && s.ba.flight == []
  {
    var s7 := CloseEarly();
    var s8 := Step(Mod32, s7, Deliver(B, 0, 0));
    var s9 := Step(Mod32, s8, Deliver(B, 0, 0));
    var s10 := Step(Mod32, s9, Deliver(B, 0, 0));
    var s11 := Step(Mod32, s10, Deliver(A, 0, 0));
    s := Step(Mod32, s11, Deliver(A, 0, 0));
    RunSnoc(Start(C), CLOSED_EARLY, Deliver(B, 0, 0));
    RunSnoc(Start(C), CLOSED_EARLY + [Deliver(B, 0, 0)], Deliver(B, 0, 0));
    RunSnoc(Start(C), CLOSED_EARLY + [Deliver(B, 0, 0)] + [Deliver(B, 0, 0)], Deliver(B, 0, 0));
    RunSnoc(Start(C), THREE_IN, Deliver(A, 0, 0));
    RunSnoc(Start(C), THREE_IN + [Deliver(A, 0, 0)], Deliver(A, 0, 0));
    hide Run, Step, ClosedForGood, ServerHasFin, Closing, Server2;
    Arrivals(s7, s8, s9, s10, s11, s);
  }

  /** Nothing is dropped or repeated, and what arrives is the oldest segment under way. */
  predicate OldestFirst(acts: seq<Action>) {
    forall k :: 0 <= k < |acts| ==> !acts[k].Drop? && !acts[k].Redeliver? && (acts[k].Deliver? ==> acts[k].i == 0)
  }

  lemma RunsOldestFirst()
    ensures OldestFirst(IN_ORDER)
  {
  }

  /** Two bytes are written, the second while the first is outstanding, and the side closes.
      Everything sent arrives in order and is acknowledged, the FIN too; the second byte
      is still in the send buffer. */
  lemma CloseLosesBuffered()
    ensures Reach(C, WROTE).a.tcb.state == ESTABLISHED && Reach(C, WROTE).a.tcb.sendBuf == [8]
    ensures var s := Reach(C, IN_ORDER);
            && FinAcked(s.a.tcb) && s.a.written == [7, 8] && s.a.tcb.sendBuf == [8] && !s.a.tcb.haveUnacked
            && s.b.tcb.finReceived && s.b.Received() == [7] && s.ab.flight == [] && s.ba.flight == []
    ensures OldestFirst(IN_ORDER)
  {
    var s6 := WroteTwice();
    var s := InOrderRun();
    RunsOldestFirst();
    hide Run, Step, OldestFirst, Reach;
    assert [] + ServerHasFin().readBuf == [7];
  }

  // --- The peer closing first ------------------------------------------------------------------

  const PEER_FIRST: seq<Action> := WROTE + [DoClose(B)] + [Deliver(A, 0, 0)]

  function ServerCloses(): Tcb { Server2(SERVER, CLIENT).(state := FIN_WAIT_1, sndNxt := 2, finSent := true) }
  function Stranded(): Tcb { Waiting().(state := CLOSE_WAIT, rcvNxt := 2, finReceived := true) }

  function ServersFin(): TcpSegment { Seg(SERVER, CLIENT, 1, 1, FIN_ACK, []) }
  function ServersFinsAck(): TcpSegment { Seg(CLIENT, SERVER, 2, 2, ACK, []) }

  lemma ServerClosesFirst()
    ensures Close(Mod32, Server2(SERVER, CLIENT)) == ServerCloses().(outbox := [ServersFin()])
  {
  }

  lemma ClientTakesFin()
    ensures OnSegment(Mod32, Waiting(), ServersFin(), 2, 0).0 == Stranded().(outbox := [ServersFinsAck()])
  {
    ClientAckFirst();
    ClientFinLast();
    hide TakeAck, TakeData, TakeFin;
    hide OnListen, OnSynSent, OnSynReceived;
  }

  lemma ClientAckFirst()
    ensures TakeAck(Mod32, Waiting(), ServersFin()) == Waiting()
    ensures TakeData(Mod32, Waiting(), ServersFin()) == Waiting()
  {
    assert !AcksNew(Mod32, Waiting(), ServersFin());
    hide AcksNew, ClearAcked;
  }

  lemma ClientFinLast()
    ensures TakeFin(Mod32, Waiting(), ServersFin()) == Stranded().(outbox := [ServersFinsAck()])
  {
    assert HandlePeerFin(Mod32, Waiting()) == Stranded().(outbox := [ServersFinsAck()]);
    hide HandlePeerFin;
  }

  /** The peer closes while a byte is buffered: the side is in CLOSE_WAIT and will never send it. */
  lemma PeerCloseStrands()
    ensures var s := Reach(C, PEER_FIRST);
            s.a.tcb.state == CLOSE_WAIT && s.a.written == [7, 8] && s.a.tcb.sendBuf == [8]
  {
    var s6 := WroteTwice();
    var s7 := Step(Mod32, s6, DoClose(B));
    RunSnoc(Start(C), WROTE, DoClose(B));
    RunSnoc(Start(C), WROTE + [DoClose(B)], Deliver(A, 0, 0));
    ServerClosesFirst();
    ClientTakesFin();
    hide Run, Close, OnSegment;
    CloseAtB(s6, s7);
    hide Step;
    DeliverStep(s7, A, 0, Stranded(), [ServersFinsAck()]);
  }

  lemma CloseAtB(s6: Sys, s7: Sys)
    requires s6.a == Node(Waiting(), [7, 8], [], true) && s6.b == Node(Server2(SERVER, CLIENT), [], [], true)
    requires s6.ba.flight == [] && s7 == Step(Mod32, s6, DoClose(B))
    ensures s7.a == s6.a && s7.b == Node(ServerCloses(), [], [], true) && s7.ba.flight == [ServersFin()]
  {
    ServerClosesFirst();
    hide Close;
  }
}
