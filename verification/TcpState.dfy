/** The connection object: fields updated in place, outbound segments appended
    to outbox.  Each method computes the TcpMachine function of its name in
    32-bit arithmetic; the ISS a method draws at random is a parameter. */
module TcpState {
  import opened Bytes
  import opened SeqArith
  import opened Segment
  import M = TcpMachine
  import opened TcpMachine

  class TcpState {
    const localIp: Ip
    const localPort: nat
    var remoteIp: Option<Ip>
    var remotePort: nat
    var state: State
    var sndNxt: nat
    var sndUna: nat
    var iss: nat
    var sndWnd: nat
    var rcvNxt: nat
    var irs: nat
    var rcvWnd: nat
    var outbox: seq<TcpSegment>
    var readBuf: bytes
    var sendBuf: bytes
    var unackedData: bytes
    var unackedSeq: nat
    var haveUnacked: bool
    const localMss: nat
    var peerMss: nat
    var finReceived: bool
    var finSent: bool
    var aborted: bool
    var abortedIn: Option<State>

    ghost function Value(): Tcb
      reads this
    {
      Tcb(localIp, localPort, remoteIp, remotePort, state, sndNxt, sndUna, iss, sndWnd, rcvNxt, irs, rcvWnd,
          outbox, readBuf, sendBuf, unackedData, unackedSeq, haveUnacked, localMss, peerMss,
          finReceived, finSent, aborted, abortedIn)
    }

    constructor (localIp: Ip, localPort: nat, mss: nat)
      ensures Value() == M.Init(localIp, localPort, mss)
    {
      this.localIp, this.localPort := localIp, localPort;
      remoteIp, remotePort, state := None, 0, CLOSED;
      sndNxt, sndUna, iss, sndWnd := 0, 0, 0, 65535;
      rcvNxt, irs, rcvWnd := 0, 0, 65535;
      outbox, readBuf, sendBuf := [], [], [];
      unackedData, unackedSeq, haveUnacked := [], 0, false;
      localMss, peerMss := mss, mss;
      finReceived, finSent, aborted, abortedIn := false, false, false, None;
    }

    method Emit(flags: Flags, payload: bytes)
      modifies this
      ensures Value() == M.Emit(Mod32, old(Value()), flags, payload)
    {
      var options := [];
      if flags.syn {
        options := BuildMssOption(localMss);
      }
      Transmit(TcpSegment(localPort, remotePort, Norm(Mod32, sndNxt), Norm(Mod32, rcvNxt), flags,
                          rcvWnd % 0x1_0000, options, payload, 0));
      Track(flags, payload);
    }

    method Transmit(seg: TcpSegment)
      modifies this
      ensures Value() == M.Transmit(Mod32, old(Value()), seg)
    {
      outbox := outbox + [seg];
      sndNxt := Norm(Mod32, sndNxt + seg.SegmentLength());
    }

    method Track(flags: Flags, payload: bytes)
      modifies this
      ensures Value() == M.Track(Mod32, old(Value()), flags, payload)
    {
      if payload != [] {
        unackedData := payload;
        unackedSeq := Back(Mod32, sndNxt, |payload|);
        haveUnacked := true;
      }
      if flags.fin {
        finSent := true;
      }
    }

    method EmitRst(seqNo: nat)
      modifies this
      ensures Value() == M.EmitRst(Mod32, old(Value()), seqNo)
    {
      outbox := outbox + [TcpSegment(localPort, remotePort, Norm(Mod32, seqNo), 0, NO_FLAGS.(rst := true), 0, [], [], 0)];
    }

    method EmitPureAck()
      modifies this
      ensures Value() == M.EmitPureAck(Mod32, old(Value()))
    {
      outbox := outbox + [TcpSegment(localPort, remotePort, Norm(Mod32, sndNxt), Norm(Mod32, rcvNxt), ACK,
                                     rcvWnd % 0x1_0000, [], [], 0)];
    }

    method EmitSynAck()
      modifies this
      ensures Value() == M.EmitSynAck(Mod32, old(Value()))
    {
      outbox := outbox + [TcpSegment(localPort, remotePort, Norm(Mod32, iss), Norm(Mod32, rcvNxt), SYN_ACK,
                                     rcvWnd % 0x1_0000, BuildMssOption(localMss), [], 0)];
    }

    /** open_simul is this same call. */
    method OpenActive(remoteIp: Ip, remotePort: nat, iss: nat) returns (ok: bool)
      modifies this
      ensures ok == M.OpenActive(Mod32, old(Value()), remoteIp, remotePort, iss).Ok?
      ensures Value() == if ok then M.OpenActive(Mod32, old(Value()), remoteIp, remotePort, iss).value else old(Value())
    {
      if state != CLOSED {
        return false;
      }
      Bind(remoteIp, remotePort, iss);
      Emit(SYN, []);
      state := SYN_SENT;
      return true;
    }

    method Bind(remoteIp: Ip, remotePort: nat, iss: nat)
      modifies this
      ensures Value() == M.Bind(old(Value()), remoteIp, remotePort, iss)
    {
      this.remoteIp, this.remotePort := Some(remoteIp), remotePort;
      StartAt(iss);
    }

    method StartAt(iss: nat)
      modifies this
      ensures Value() == old(Value()).(iss := iss, sndNxt := iss, sndUna := iss)
    {
      this.iss := iss;
      sndNxt := iss;
      sndUna := iss;
    }

    method OpenListen() returns (ok: bool)
      modifies this
      ensures ok == M.OpenListen(old(Value())).Ok?
      ensures Value() == if ok then M.OpenListen(old(Value())).value else old(Value())
    {
      if state != CLOSED {
        return false;
      }
      state := LISTEN;
      return true;
    }

    method Write(data: bytes) returns (ok: bool)
      modifies this
      ensures ok == M.Write(Mod32, old(Value()), data).Ok?
      ensures Value() == if ok then M.Write(Mod32, old(Value()), data).value else old(Value())
    {
      if state in {CLOSED, LISTEN, SYN_SENT, SYN_RECEIVED} {
        sendBuf := sendBuf + data;
        return true;
      }
      if state != ESTABLISHED {
        return false;
      }
      sendBuf := sendBuf + data;
      FlushSend();
      return true;
    }

    method FlushSend()
      modifies this
      ensures Value() == M.FlushSend(Mod32, old(Value()))
    {
      if sendBuf == [] {
        return;
      }
      if haveUnacked {
        return;
      }
      var n := if |sendBuf| <= peerMss then |sendBuf| else peerMss;
      var chunk := sendBuf[..n];
      sendBuf := sendBuf[|chunk|..];
      Emit(ACK_PSH, chunk);
    }

    method Close()
      modifies this
      ensures Value() == M.Close(Mod32, old(Value()))
    {
      if state == CLOSED || state == LISTEN {
        state := CLOSED;
        return;
      }
      if state == SYN_SENT {
        state := CLOSED;
        return;
      }
      if state == SYN_RECEIVED {
        Emit(FIN_ACK, []);
        state := FIN_WAIT_1;
        return;
      }
      if state == ESTABLISHED {
        Emit(FIN_ACK, []);
        state := FIN_WAIT_1;
        return;
      }
      if state == CLOSE_WAIT {
        Emit(FIN_ACK, []);
        state := LAST_ACK;
        return;
      }
    }

    method PopRead(n: Option<nat>) returns (out: bytes)
      modifies this
      ensures (out, Value()) == M.PopRead(old(Value()), n)
    {
      if n == None || n.value >= |readBuf| {
        out := readBuf;
        readBuf := [];
        return;
      }
      out := readBuf[..n.value];
      readBuf := readBuf[n.value..];
    }

    /** One round of the retransmit timer in conn.py, from its wait to the flush. */
    method Retransmit()
      modifies this
      ensures Value() == M.Retransmit(Mod32, old(Value()))
    {
      if haveUnacked && unackedData != [] {
        outbox := outbox + [TcpSegment(localPort, remotePort, Norm(Mod32, unackedSeq), Norm(Mod32, rcvNxt), ACK_PSH,
                                       rcvWnd % 0x1_0000, [], unackedData, 0)];
      }
    }

    method OnSegment(seg: TcpSegment, srcIp: Ip, drawn: nat) returns (accepted: bool)
      modifies this
      ensures (Value(), accepted) == M.OnSegment(Mod32, old(Value()), seg, srcIp, drawn)
    {
      if state != CLOSED && state != LISTEN {
        if seg.srcPort != remotePort || Some(srcIp) != remoteIp {
          return false;
        }
      }
      if seg.flags.rst {
        accepted := HandleRst(seg);
      } else if state == CLOSED {
        accepted := false;
      } else if state == LISTEN {
        accepted := OnListen(seg, srcIp, drawn);
      } else if state == SYN_SENT {
        accepted := OnSynSent(seg);
      } else if state == SYN_RECEIVED {
        accepted := OnSynReceived(seg);
      } else if state == TIME_WAIT {
        if seg.flags.fin {
          EmitPureAck();
        }
        accepted := true;
      } else {
        accepted := OnEstablished(seg);
      }
    }

    method HandleRst(seg: TcpSegment) returns (accepted: bool)
      modifies this
      ensures (Value(), accepted) == M.HandleRst(Mod32, old(Value()), seg)
    {
      if state == SYN_SENT {
        if !seg.flags.ack {
          return false;
        }
        if seg.ackNo != Norm(Mod32, iss + 1) {
          return false;
        }
      }
      aborted := true;
      abortedIn := Some(state);
      state := CLOSED;
      return true;
    }

    method ReadPeerMss(seg: TcpSegment)
      modifies this
      ensures Value() == M.ReadPeerMss(old(Value()), seg)
    {
      if !seg.flags.syn {
        return;
      }
      var opts := ParseOptions(seg.options);
      var raw := GetOption(opts, OPT_MSS);
      if raw.Some? && |raw.value| == 2 {
        peerMss := if ToU16(raw.value) < 536 then 536 else ToU16(raw.value);
      }
    }

    method OnListen(seg: TcpSegment, srcIp: Ip, drawn: nat) returns (accepted: bool)
      modifies this
      ensures (Value(), accepted) == M.OnListen(Mod32, old(Value()), seg, srcIp, drawn)
    {
      if seg.flags.ack {
        EmitRst(seg.ackNo);
        return false;
      }
      if !seg.flags.syn {
        return false;
      }
      Latch(seg);
      Bind(srcIp, seg.srcPort, drawn);
      Emit(SYN_ACK, []);
      state := SYN_RECEIVED;
      return true;
    }

    method OnSynSent(seg: TcpSegment) returns (accepted: bool)
      modifies this
      ensures (Value(), accepted) == M.OnSynSent(Mod32, old(Value()), seg)
    {
      if seg.flags.ack {
        if !SeqInWindow(Mod32, seg.ackNo, Norm(Mod32, sndUna + 1), Norm(Mod32, sndNxt + 1)) {
          return false;
        }
      }
      if !seg.flags.syn {
        return false;
      }
      Latch(seg);
      if seg.flags.ack {
        Advance(seg);
        EmitPureAck();
        state := ESTABLISHED;
        FlushSend();
        return true;
      }
      EmitSynAck();
      state := SYN_RECEIVED;
      return true;
    }

    method Latch(seg: TcpSegment)
      modifies this
      ensures Value() == M.Latch(Mod32, old(Value()), seg)
    {
      irs := seg.seqNo;
      rcvNxt := Norm(Mod32, seg.seqNo + 1);
      ReadPeerMss(seg);
    }

    method Advance(seg: TcpSegment)
      modifies this
      ensures Value() == old(Value()).(sndUna := seg.ackNo, sndWnd := seg.window)
    {
      sndUna := seg.ackNo;
      sndWnd := seg.window;
    }

    method OnSynReceived(seg: TcpSegment) returns (accepted: bool)
      modifies this
      ensures (Value(), accepted) == M.OnSynReceived(Mod32, old(Value()), seg)
    {
      if seg.flags.syn && !seg.flags.ack {
        EmitSynAck();
        return true;
      }
      if !seg.flags.ack {
        return false;
      }
      var expectedAck := Norm(Mod32, iss + 1);
      if seg.ackNo != expectedAck {
        return false;
      }
      Advance(seg);
      state := ESTABLISHED;
      hide M.TakeFirstData;
      TakeFirstData(seg);
      return true;
    }

    method TakeFirstData(seg: TcpSegment)
      modifies this
      ensures Value() == M.TakeFirstData(Mod32, old(Value()), seg)
    {
      hide M.TakePayload, M.HandlePeerFin, M.FlushSend;
      if seg.payload != [] {
        TakePayload(seg);
      }
      if seg.flags.fin {
        HandlePeerFin();
      }
      FlushSend();
    }

    method TakePayload(seg: TcpSegment)
      modifies this
      ensures Value() == M.TakePayload(Mod32, old(Value()), seg)
    {
      ghost var t := Value();
      readBuf := readBuf + seg.payload;
      rcvNxt := Norm(Mod32, rcvNxt + |seg.payload|);
      assert Value() == t.(readBuf := t.readBuf + seg.payload, rcvNxt := Norm(Mod32, t.rcvNxt + |seg.payload|));
      EmitPureAck();
    }

    method TakeAck(seg: TcpSegment)
      modifies this
      ensures Value() == M.TakeAck(Mod32, old(Value()), seg)
    {
      hide SeqInWindow, Norm;
      if seg.flags.ack {
        if SeqInWindow(Mod32, seg.ackNo, Norm(Mod32, sndUna + 1), Norm(Mod32, sndNxt + 1)) {
          Advance(seg);
          if haveUnacked {
            var endSeq := Norm(Mod32, unackedSeq + |unackedData|);
            if SeqInWindow(Mod32, endSeq, sndUna, Norm(Mod32, sndUna + 1)) || endSeq == sndUna {
              unackedData := [];
              haveUnacked := false;
            }
          }
        }
      }
    }

    method OnEstablished(seg: TcpSegment) returns (accepted: bool)
      modifies this
      ensures (Value(), accepted) == M.OnEstablished(Mod32, old(Value()), seg)
    {
      hide M.TakeAck, M.TakeData, M.TakeFin, M.EmitPureAck, SeqInWindow, Norm;
      if seg.SegmentLength() > 0 {
        var width := if rcvWnd > 1 then rcvWnd else 1;
        if !SeqInWindow(Mod32, seg.seqNo, rcvNxt, Norm(Mod32, rcvNxt + width)) {
          EmitPureAck();
          return false;
        }
      }
      TakeAck(seg);
      TakeData(seg);
      TakeFin(seg);
      return true;
    }

    method TakeData(seg: TcpSegment)
      modifies this
      ensures Value() == M.TakeData(Mod32, old(Value()), seg)
    {
      if seg.payload != [] && seg.seqNo == rcvNxt {
        TakePayload(seg);
      } else if seg.payload != [] {
        EmitPureAck();
      }
    }

    method TakeFin(seg: TcpSegment)
      modifies this
      ensures Value() == M.TakeFin(Mod32, old(Value()), seg)
    {
      if seg.flags.fin && seg.seqNo + |seg.payload| == rcvNxt {
        HandlePeerFin();
      }
      CloseTransitions();
      hide M.HandlePeerFin, M.CloseTransitions;
      if state == ESTABLISHED {
        FlushSend();
      }
    }

    method CloseTransitions()
      modifies this
      ensures Value() == M.CloseTransitions(old(Value()))
    {
      if state == FIN_WAIT_1 && FinAcked() {
        if finReceived {
          state := TIME_WAIT;
        } else {
          state := FIN_WAIT_2;
        }
      }
      if state == CLOSING && FinAcked() {
        state := TIME_WAIT;
      }
      if state == LAST_ACK && FinAcked() {
        state := CLOSED;
      }
    }

    predicate FinAcked()
      reads this
    {
      finSent && sndUna == sndNxt
    }

    method HandlePeerFin()
      modifies this
      ensures Value() == M.HandlePeerFin(Mod32, old(Value()))
    {
      if finReceived {
        return;
      }
      ghost var t := Value();
      finReceived := true;
      rcvNxt := Norm(Mod32, rcvNxt + 1);
      assert Value() == t.(finReceived := true, rcvNxt := Norm(Mod32, t.rcvNxt + 1));
      EmitPureAck();
      hide M.EmitPureAck;
      AfterPeerFin();
    }

    method AfterPeerFin()
      modifies this
      ensures Value() == M.AfterPeerFin(old(Value()))
    {
      if state == ESTABLISHED {
        state := CLOSE_WAIT;
      } else if state == FIN_WAIT_1 {
        state := if FinAcked() then TIME_WAIT else CLOSING;
      } else if state == FIN_WAIT_2 {
        state := TIME_WAIT;
      }
    }
  }
}
