/** Two connection objects and the network between them.

    Run carries a list of actions out on the objects themselves and ends in exactly the
    state the model reaches, so that what is proved about every run of the model is
    proved about the objects' fields. */
module TcpDriver {
  import opened Bytes
  import opened SeqArith
  import opened Segment
  import M = TcpMachine
  import opened TcpMachine
  import opened TcpState
  import opened TcpNetwork
  import opened TcpRefine
  import opened TcpSimulation
  import opened TcpTheorems

  /** A connection, and what its application has written and read. */
  class Endpoint {
    const tcp: TcpState
    var written: bytes
    var popped: bytes
    var started: bool

    ghost function Value(): Node
      reads this, tcp
    {
      Node(tcp.Value(), written, popped, started)
    }

    function Received(): bytes
      reads this, tcp
    {
      popped + tcp.readBuf
    }

    constructor (ip: Ip, port: nat, mss: nat)
      ensures Value() == Node(Init(ip, port, mss), [], [], false) && fresh(tcp)
    {
      tcp := new TcpState(ip, port, mss);
      written, popped, started := [], [], false;
    }

    method Flush(out: Channel) returns (out': Channel)
      modifies tcp
      ensures (Value(), out') == TcpNetwork.Flush(old(Value()), old(tcp.Value()), out)
    {
      out' := out;
      if tcp.remoteIp != None {
        out' := Channel(out.sent + (set s | s in tcp.outbox), out.flight + tcp.outbox);
      }
      tcp.outbox := [];
    }

    method Receive(seg: TcpSegment, srcIp: Ip, iss: nat, out: Channel) returns (out': Channel)
      modifies tcp
      ensures (Value(), out') == TcpNetwork.Receive(Mod32, old(Value()), seg, srcIp, iss, out)
    {
      var _ := tcp.OnSegment(seg, srcIp, iss);
      out' := Flush(out);
      hide M.OnSegment;
    }

    /** The two opens. */
    method Open(peer: Endpoint, out: Channel, ghost inp: Channel, act: Action) returns (out': Channel)
      requires act.DoOpenActive? || act.DoOpenListen?
      modifies this, tcp
      ensures (Value(), out', inp) == Act(Mod32, old(Value()), old(peer.Value()), out, inp, act)
    {
      out' := out;
      if started {
        return;
      }
      if act.DoOpenListen? {
        started := tcp.OpenListen();
      } else if act.iss < M32 {
        var ok := tcp.OpenActive(peer.tcp.localIp, peer.tcp.localPort, act.iss);
        if ok {
          started := true;
          out' := Flush(out);
        }
      }
      hide M.Emit, TcpNetwork.Receive;
    }

    /** The calls of an application, and the retransmit timer. */
    method Call(ghost peer: Endpoint, out: Channel, ghost inp: Channel, act: Action) returns (out': Channel)
      requires act.DoWrite? || act.DoClose? || act.DoPopRead? || act.DoRetransmit?
      modifies this, tcp
      ensures (Value(), out', inp) == Act(Mod32, old(Value()), old(peer.Value()), out, inp, act)
    {
      out' := out;
      match act
      case DoWrite(_, data) =>
        var ok := tcp.Write(data);
        if ok {
          written := written + data;
          out' := Flush(out);
        }
      case DoClose(_) =>
        tcp.Close();
        out' := Flush(out);
      case DoPopRead(_, n) =>
        var bytes := tcp.PopRead(n);
        popped := popped + bytes;
      case DoRetransmit(_) =>
        tcp.Retransmit();
        out' := Flush(out);
      hide M.Write, M.Close, M.PopRead, M.Retransmit, TcpNetwork.Receive;
    }

    /** What the network does to this side. */
    method Arrive(peer: Endpoint, out: Channel, inp: Channel, act: Action) returns (out': Channel, inp': Channel)
      requires act.Deliver? || act.Redeliver? || act.Drop? || act.Inject?
      modifies tcp
      ensures (Value(), out', inp') == Act(Mod32, old(Value()), old(peer.Value()), out, inp, act)
    {
      out', inp' := out, inp;
      match act
      case Deliver(_, i, iss) =>
        if i < |inp.flight| && iss < M32 {
          out' := Receive(inp.flight[i], peer.tcp.localIp, iss, out);
          inp' := inp.(flight := Without(inp.flight, i));
        }
      case Redeliver(_, seg, iss) =>
        if seg in inp.sent && iss < M32 {
          out' := Receive(seg, peer.tcp.localIp, iss, out);
        }
      case Drop(_, i) =>
        if i < |inp.flight| {
          inp' := inp.(flight := Without(inp.flight, i));
        }
      case Inject(_, seg, srcIp) =>
        if seg.flags.rst
           || (tcp.state != LISTEN && (seg.srcPort != peer.tcp.localPort || srcIp != peer.tcp.localIp)) {
          out' := Receive(seg, srcIp, 0, out);
        }
      hide TcpNetwork.Receive, Without;
    }

    method Perform(peer: Endpoint, out: Channel, inp: Channel, act: Action) returns (out': Channel, inp': Channel)
      modifies this, tcp
      ensures (Value(), out', inp') == Act(Mod32, old(Value()), old(peer.Value()), out, inp, act)
    {
      hide Act;
      out', inp' := out, inp;
      match act
      case DoOpenActive(_, _) => out' := Open(peer, out, inp, act);
      case DoOpenListen(_) => out' := Open(peer, out, inp, act);
      case DoWrite(_, _) => out' := Call(peer, out, inp, act);
      case DoClose(_) => out' := Call(peer, out, inp, act);
      case DoPopRead(_, _) => out' := Call(peer, out, inp, act);
      case DoRetransmit(_) => out' := Call(peer, out, inp, act);
      case _ => out', inp' := Arrive(peer, out, inp, act);
    }
  }

  /** Any list of actions on two new connections: the objects end in the state the model
      reaches, and what each side has received is a prefix of what its peer wrote. */
  method Drive(c: Config, acts: seq<Action>) returns (a: Endpoint, b: Endpoint, ab: Channel, ba: Channel)
    ensures Sys(a.Value(), b.Value(), ab, ba) == Reach(c, acts)
    ensures |a.written| <= MAX_STREAM && |b.written| <= MAX_STREAM
            ==> b.Received() <= a.written && a.Received() <= b.written
  {
    a := new Endpoint(c.ipA, c.portA, c.mssA);
    b := new Endpoint(c.ipB, c.portB, c.mssB);
    ab, ba := Channel({}, []), Channel({}, []);
    for k := 0 to |acts|
      invariant a != b && a.tcp != b.tcp && fresh(a) && fresh(b) && fresh(a.tcp) && fresh(b.tcp)
      invariant Sys(a.Value(), b.Value(), ab, ba) == Reach(c, acts[..k])
    {
      hide Act;
      assert acts[..k + 1][..k] == acts[..k];
      if acts[k].side == A {
        ab, ba := a.Perform(b, ab, ba, acts[k]);
      } else {
        ba, ab := b.Perform(a, ba, ab, acts[k]);
      }
    }
    assert acts[..|acts|] == acts;
    if |a.written| <= MAX_STREAM && |b.written| <= MAX_STREAM { StreamSafety(c, acts); }
  }
}
