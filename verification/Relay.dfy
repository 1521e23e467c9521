/** The two-way relay between a pair of sockets, TCP or UDP.

    What the operating system answers (readiness, data, errors) is an input; the
    run is a list of wake-ups of any length, with any answers. */
module Relay {
  import opened Bytes

  datatype Transport = Tcp | Udp

  datatype Sock = P | R
  {
    function Peer(): Sock { if this == P then R else P }
  }

  /** Bytes of a stream, or whole datagrams. */
  datatype Buffer = Stream(data: bytes) | Queue(datagrams: seq<bytes>)
  {
    function Length(): nat { if Stream? then |data| else |datagrams| }
  }

  function Empty(t: Transport): Buffer { if t == Tcp then Stream([]) else Queue([]) }

  predicate IsFor(b: Buffer, t: Transport) { b.Stream? <==> t == Tcp }

  /** a followed by b. */
  function Join(a: Buffer, b: Buffer): Buffer
    requires a.Stream? <==> b.Stream?
  {
    if a.Stream? then Stream(a.data + b.data) else Queue(a.datagrams + b.datagrams)
  }

  predicate IsPrefix(a: Buffer, b: Buffer) {
    (a.Stream? && b.Stream? && a.data <= b.data) || (a.Queue? && b.Queue? && a.datagrams <= b.datagrams)
  }

  // recv gives data (b"" is the end of a TCP stream), nothing yet, or an error; send likewise.
  datatype Recv = Data(data: bytes) | NoData | RecvError
  datatype Send = Accepted(n: nat) | NoRoom | SendError

  /** One ready socket: what it is ready for, and what the system calls then return.
      drained is how much a blocking sendall gets out, None meaning all of it; armable
      is false when the peer's selector entry cannot be changed. */
  datatype Event = Event(sock: Sock, readable: bool, writable: bool, recv: Recv, send: Send,
                         drained: Option<nat>, armable: bool)

  datatype Round = StopSignal | Wake(events: seq<Event>)

  const ECONNREFUSED_LIMIT := 8

  /** One socket as the relay sees it; got is all that was read for it from its peer and
      sent all that was sent to it. */
  datatype Leg = Leg(buffer: Buffer, armed: bool, streak: nat, got: Buffer, sent: Buffer)

  datatype Pair = Pair(transport: Transport, open: bool, legP: Leg, legR: Leg)
  {
    function At(s: Sock): Leg { if s == P then legP else legR }

    function With(s: Sock, leg: Leg): Pair { if s == P then this.(legP := leg) else this.(legR := leg) }

    predicate Shaped() { Fits(transport, legP) && Fits(transport, legR) }
  }

  predicate Fits(t: Transport, leg: Leg) { IsFor(leg.buffer, t) && IsFor(leg.got, t) && IsFor(leg.sent, t) }

  function Start(t: Transport): Pair {
    var leg := Leg(Empty(t), false, 0, Empty(t), Empty(t));
    Pair(t, true, leg, leg)
  }

  function Discard(t: Transport, leg: Leg): Leg { leg.(buffer := Empty(t), armed := false) }

  function Close(p: Pair): (r: Pair)
    requires p.Shaped()
    ensures r.Shaped()
  {
    p.(open := false, legP := Discard(p.transport, p.legP), legR := Discard(p.transport, p.legR))
  }

  function Min(a: nat, b: nat): nat { if a < b then a else b }

  // --- Reading -----------------------------------------------------------------------------

  function Item(t: Transport, data: bytes): Buffer { if t == Tcp then Stream(data) else Queue([data]) }

  function Enqueue(p: Pair, to: Sock, data: bytes): Pair
    requires p.Shaped()
  {
    var leg := p.At(to);
    var item := Item(p.transport, data);
    p.With(to, leg.(buffer := Join(leg.buffer, item), got := Join(leg.got, item)))
  }

  /** The end of a TCP stream: what is pending for the peer is pushed out before the pair is closed. */
  function Drain(p: Pair, to: Sock, drained: Option<nat>): Pair
    requires p.Shaped() && p.transport == Tcp
  {
    var leg := p.At(to);
    var n := if drained == None then |leg.buffer.data| else Min(drained.value, |leg.buffer.data|);
    p.With(to, leg.(buffer := Stream([]), sent := Stream(leg.sent.data + leg.buffer.data[..n])))
  }

  function SetStreak(p: Pair, s: Sock, n: nat): Pair
    requires p.Shaped()
  {
    p.With(s, p.At(s).(streak := n))
  }

  function SetArmed(p: Pair, s: Sock, armed: bool): Pair
    requires p.Shaped()
  {
    p.With(s, p.At(s).(armed := armed))
  }

  /** The pair after the read, and whether the write of the same event is still considered. */
  function Read(p: Pair, e: Event): (r: (Pair, bool))
    requires p.Shaped() && p.open
    ensures r.0.Shaped() && (r.1 ==> r.0.open)
  {
    match e.recv
    case Data(data) =>
      if p.transport == Tcp && data == [] then (Close(Drain(p, e.sock.Peer(), e.drained)), false)
      else
        var p1 := Enqueue(if p.transport == Udp then SetStreak(p, e.sock, 0) else p, e.sock.Peer(), data);
        (if e.armable then SetArmed(p1, e.sock.Peer(), true) else p1, true)
    case NoData => (p, true)
    case RecvError =>
      if p.transport == Tcp then (Close(p), false)
      else
        var p1 := SetStreak(p, e.sock, p.At(e.sock).streak + 1);
        (if p1.At(e.sock).streak >= ECONNREFUSED_LIMIT then Close(p1) else p1, false)
  }

  // --- Writing --------------------------------------------------------------------------------

  predicate HasPending(b: Buffer) { b.Length() > 0 }

  function Sent(leg: Leg, n: nat): Leg
    requires n <= leg.buffer.Length() && (leg.buffer.Stream? <==> leg.sent.Stream?)
  {
    if leg.buffer.Stream? then
      leg.(buffer := Stream(leg.buffer.data[n..]), sent := Stream(leg.sent.data + leg.buffer.data[..n]))
    else
      leg.(buffer := Queue(leg.buffer.datagrams[n..]), sent := Queue(leg.sent.datagrams + leg.buffer.datagrams[..n]))
  }

  /** A TCP error ends the pair; a UDP datagram that cannot be sent goes back to the head. */
  function WriteChunk(p: Pair, e: Event): Pair
    requires p.Shaped() && p.open && HasPending(p.At(e.sock).buffer)
  {
    var leg := p.At(e.sock);
    match e.send
    case Accepted(n) => p.With(e.sock, Sent(leg, if p.transport == Tcp then Min(n, leg.buffer.Length()) else 1))
    case _ => if p.transport == Tcp then Close(p) else p
  }

  function Write(p: Pair, e: Event): (r: Pair)
    requires p.Shaped() && p.open
    ensures r.Shaped()
  {
    if !HasPending(p.At(e.sock).buffer) then SetArmed(p, e.sock, false)
    else
      var p1 := WriteChunk(p, e);
      if p1.open && !HasPending(p1.At(e.sock).buffer) then SetArmed(p1, e.sock, false) else p1
  }

  // --- The loop -------------------------------------------------------------------------------

  function Handle(p: Pair, e: Event): (r: Pair)
    requires p.Shaped()
    ensures r.Shaped()
  {
    if !p.open then p
    else
      var (p1, more) := if e.readable then Read(p, e) else (p, true);
      if e.writable && more then Write(p1, e) else p1
  }

  function HandleAll(p: Pair, events: seq<Event>): (r: Pair)
    requires p.Shaped()
    ensures r.Shaped()
  {
    if events == [] then p else Handle(HandleAll(p, events[..|events| - 1]), events[|events| - 1])
  }

  function Loop(p: Pair, rounds: seq<Round>): (r: Pair)
    requires p.Shaped()
    ensures r.Shaped()
  {
    if rounds == [] then p
    else
      var p1 := Loop(p, rounds[..|rounds| - 1]);
      match rounds[|rounds| - 1]
      case StopSignal => Close(p1)
      case Wake(events) => HandleAll(p1, events)
  }

  // --- Conservation ------------------------------------------------------------------------------

  /** Nothing is invented, lost or reordered: what was sent begins what was read, and
      while the pair is open the rest is still buffered. */
  predicate Conserved(t: Transport, open: bool, leg: Leg) {
    && IsFor(leg.buffer, t) && IsFor(leg.got, t) && IsFor(leg.sent, t)
    && IsPrefix(leg.sent, leg.got)
    && (open ==> Join(leg.sent, leg.buffer) == leg.got)
  }

  predicate AllConserved(p: Pair) {
    Conserved(p.transport, p.open, p.legP) && Conserved(p.transport, p.open, p.legR)
  }

  lemma EnqueueConserves(p: Pair, to: Sock, data: bytes)
    requires AllConserved(p) && p.open
    ensures AllConserved(Enqueue(p, to, data))
  {
    var leg := p.At(to);
    var leg' := Enqueue(p, to, data).At(to);
    if p.transport == Tcp {
      assert leg.sent.data + (leg.buffer.data + data) == (leg.sent.data + leg.buffer.data) + data;
    } else {
      assert leg.sent.datagrams + (leg.buffer.datagrams + [data]) == (leg.sent.datagrams + leg.buffer.datagrams) + [data];
    }
    assert Conserved(p.transport, true, leg');
  }

  lemma SentConserves(t: Transport, leg: Leg, n: nat)
    requires Conserved(t, true, leg) && n <= leg.buffer.Length()
    ensures Conserved(t, true, Sent(leg, n))
  {
    if t == Tcp {
      var b := leg.buffer.data;
      assert leg.sent.data + b[..n] + b[n..] == leg.sent.data + (b[..n] + b[n..]) && b[..n] + b[n..] == b;
    } else {
      var b := leg.buffer.datagrams;
      assert leg.sent.datagrams + b[..n] + b[n..] == leg.sent.datagrams + (b[..n] + b[n..]) && b[..n] + b[n..] == b;
    }
  }

  lemma DrainConserves(p: Pair, to: Sock, drained: Option<nat>)
    requires AllConserved(p) && p.open && p.transport == Tcp
    ensures AllConserved(Close(Drain(p, to, drained)))
  {
    var leg := p.At(to);
    var n := if drained == None then |leg.buffer.data| else Min(drained.value, |leg.buffer.data|);
    SentConserves(Tcp, leg, n);
    assert Drain(p, to, drained).At(to).sent == Sent(leg, n).sent;
  }

  lemma ReadConserves(p: Pair, e: Event)
    requires AllConserved(p) && p.open
    ensures AllConserved(Read(p, e).0)
  {
    match e.recv
    case Data(data) =>
      if p.transport == Tcp && data == [] {
        DrainConserves(p, e.sock.Peer(), e.drained);
      } else {
        EnqueueConserves(if p.transport == Udp then SetStreak(p, e.sock, 0) else p, e.sock.Peer(), data);
      }
      hide Drain, Enqueue;
    case _ =>
  }

  lemma WriteConserves(p: Pair, e: Event)
    requires AllConserved(p) && p.open
    ensures AllConserved(Write(p, e))
  {
    if HasPending(p.At(e.sock).buffer) && e.send.Accepted? {
      SentConserves(p.transport, p.At(e.sock), if p.transport == Tcp then Min(e.send.n, p.At(e.sock).buffer.Length()) else 1);
    }
    hide Sent;
  }

  lemma HandleConserves(p: Pair, e: Event)
    requires AllConserved(p)
    ensures AllConserved(Handle(p, e))
  {
    if p.open {
      ReadConserves(p, e);
      var (p1, more) := if e.readable then Read(p, e) else (p, true);
      if more { WriteConserves(p1, e); }
    }
    hide Read, Write, Conserved;
  }

  lemma {:induction false} HandleAllConserves(p: Pair, events: seq<Event>)
    requires AllConserved(p)
    ensures AllConserved(HandleAll(p, events))
  {
    if events != [] {
      HandleAllConserves(p, events[..|events| - 1]);
      HandleConserves(HandleAll(p, events[..|events| - 1]), events[|events| - 1]);
    }
  }

  lemma {:induction false} RunConserves(t: Transport, rounds: seq<Round>)
    ensures AllConserved(Loop(Start(t), rounds))
  {
    if rounds != [] {
      var before := rounds[..|rounds| - 1];
      RunConserves(t, before);
      match rounds[|rounds| - 1]
      case StopSignal =>
      case Wake(events) => HandleAllConserves(Loop(Start(t), before), events);
    }
  }

  // --- Progress -------------------------------------------------------------------------------------

  /** A socket is armed for writing exactly while something is pending for it: nothing
      waits unnoticed, and the loop is not woken for nothing. */
  predicate ArmedRight(p: Pair) {
    p.open ==> (p.legP.armed <==> HasPending(p.legP.buffer)) && (p.legR.armed <==> HasPending(p.legR.buffer))
  }

  predicate Armable(events: seq<Event>) { forall i :: 0 <= i < |events| ==> events[i].armable }

  lemma HandleArms(p: Pair, e: Event)
    requires p.Shaped() && ArmedRight(p) && e.armable
    ensures ArmedRight(Handle(p, e))
  {
    if p.open {
      ReadArms(p, e);
      var (p1, more) := if e.readable then Read(p, e) else (p, true);
      if more { WriteArms(p1, e); }
    }
    hide Read, Write, ArmedRight;
  }

  lemma ReadArms(p: Pair, e: Event)
    requires p.Shaped() && p.open && ArmedRight(p) && e.armable
    ensures ArmedRight(Read(p, e).0) && Read(p, e).0.Shaped()
    ensures Read(p, e).1 ==> Read(p, e).0.open
  {
    match e.recv
    case Data(data) =>
      if p.transport != Tcp || data != [] {
        EnqueuePends(if p.transport == Udp then SetStreak(p, e.sock, 0) else p, e.sock.Peer(), data);
      }
      hide Enqueue, Drain;
    case _ =>
  }

  // Something is pending after anything but empty stream data is queued; the other leg is untouched.
  lemma EnqueuePends(p: Pair, to: Sock, data: bytes)
    requires p.Shaped() && (p.transport == Tcp ==> data != [])
    ensures var q := Enqueue(p, to, data);
            && q.Shaped() && q.open == p.open && HasPending(q.At(to).buffer) && q.At(to.Peer()) == p.At(to.Peer())
            && q.transport == p.transport
  {
  }

  lemma WriteArms(p: Pair, e: Event)
    requires p.Shaped() && p.open && ArmedRight(p)
    ensures ArmedRight(Write(p, e))
  {
  }

  lemma {:induction false} HandleAllArms(p: Pair, events: seq<Event>)
    requires p.Shaped() && ArmedRight(p) && Armable(events)
    ensures ArmedRight(HandleAll(p, events))
  {
    if events != [] {
      HandleAllArms(p, events[..|events| - 1]);
      HandleArms(HandleAll(p, events[..|events| - 1]), events[|events| - 1]);
    }
  }

  lemma {:induction false} RunArms(t: Transport, rounds: seq<Round>)
    requires forall i :: 0 <= i < |rounds| && rounds[i].Wake? ==> Armable(rounds[i].events)
    ensures ArmedRight(Loop(Start(t), rounds))
  {
    if rounds != [] {
      var before := rounds[..|rounds| - 1];
      RunArms(t, before);
      match rounds[|rounds| - 1]
      case StopSignal =>
      case Wake(events) => HandleAllArms(Loop(Start(t), before), events);
    }
  }

  /** When one side ends its stream and nothing fails, the other has been sent every byte read from it. */
  lemma EndOfStreamDrains(rounds: seq<Round>, events: seq<Event>, e: Event)
    requires var p := HandleAll(Loop(Start(Tcp), rounds), events); p.open && e.readable
    requires e.recv == Data([]) && e.drained == None
    ensures var p := HandleAll(Loop(Start(Tcp), rounds), events);
            var p' := Handle(p, e);
            !p'.open && p'.At(e.sock.Peer()).sent == p.At(e.sock.Peer()).got == p'.At(e.sock.Peer()).got
  {
    RunConserves(Tcp, rounds);
    HandleAllConserves(Loop(Start(Tcp), rounds), events);
    var p := HandleAll(Loop(Start(Tcp), rounds), events);
    TransportKept(Start(Tcp), rounds);
    AllTransportKept(Loop(Start(Tcp), rounds), events);
    var leg := p.At(e.sock.Peer());
    assert leg.buffer.data[..|leg.buffer.data|] == leg.buffer.data;
  }

  lemma {:induction false} TransportKept(p: Pair, rounds: seq<Round>)
    requires p.Shaped()
    ensures Loop(p, rounds).transport == p.transport
  {
    if rounds != [] {
      TransportKept(p, rounds[..|rounds| - 1]);
      match rounds[|rounds| - 1]
      case StopSignal =>
      case Wake(events) => AllTransportKept(Loop(p, rounds[..|rounds| - 1]), events);
    }
  }

  lemma {:induction false} AllTransportKept(p: Pair, events: seq<Event>)
    requires p.Shaped()
    ensures HandleAll(p, events).transport == p.transport
  {
    if events != [] {
      var p1 := HandleAll(p, events[..|events| - 1]);
      AllTransportKept(p, events[..|events| - 1]);
      OneTransportKept(p1, events[|events| - 1]);
      hide Handle;
    }
  }

  lemma OneTransportKept(p: Pair, e: Event)
    requires p.Shaped()
    ensures Handle(p, e).transport == p.transport
  {
    if p.open {
      ReadTransport(p, e);
      hide Read;
    }
  }

  lemma ReadTransport(p: Pair, e: Event)
    requires p.Shaped() && p.open
    ensures var (p1, more) := Read(p, e); p1.Shaped() && p1.transport == p.transport && (more ==> p1.open)
  {
  }

  lemma WriteChunkShape(p: Pair, e: Event)
    requires p.Shaped() && p.open && HasPending(p.At(e.sock).buffer)
    ensures WriteChunk(p, e) == Close(p) || WriteChunk(p, e).open
    ensures !(e.send.Accepted? || p.transport == Udp) ==> WriteChunk(p, e) == Close(p)
    ensures e.send.Accepted? || p.transport == Udp ==> WriteChunk(p, e).open
  {
    hide Close, Sent;
  }

  // --- The relay's own loop ----------------------------------------------------------------------------

  /** The copy loop over its buffers, the selector's write registrations and the error
      streaks; got and sent only record what passed through. */
  class SelectorProxy {
    const transport: Transport
    var inPeers: bool
    var buffers: map<Sock, Buffer>
    var writeArmed: set<Sock>
    var streak: map<Sock, nat>
    ghost var got: map<Sock, Buffer>
    ghost var sent: map<Sock, Buffer>

    ghost predicate Valid()
      reads this
    {
      && (forall s: Sock :: s in streak && s in got && s in sent && IsFor(got[s], transport) && IsFor(sent[s], transport))
      && (forall s: Sock :: s in buffers ==> IsFor(buffers[s], transport))
      && (inPeers ==> forall s: Sock :: s in buffers)
    }

    ghost function LegAt(s: Sock): Leg
      reads this
      requires Valid()
    {
      Leg(if s in buffers then buffers[s] else Empty(transport), s in writeArmed, streak[s], got[s], sent[s])
    }

    ghost function Value(): Pair
      reads this
      requires Valid()
    {
      Pair(transport, inPeers, LegAt(P), LegAt(R))
    }

    constructor (transport: Transport)
      ensures Valid() && Value() == Start(transport)
    {
      this.transport := transport;
      inPeers := true;
      var nothing := map[P := Empty(transport), R := Empty(transport)];
      var noErrors := map[P := 0, R := 0];
      forall s: Sock ensures s in nothing && s in noErrors && nothing[s] == Empty(transport) && noErrors[s] == 0 {
        assert s == P || s == R;
      }
      buffers, got, sent := nothing, nothing, nothing;
      writeArmed := {};
      streak := noErrors;
    }

    method ClosePair()
      requires Valid()
      modifies this
      ensures Valid() && Value() == Close(old(Value()))
    {
      inPeers := false;
      writeArmed := {};
      buffers := buffers - {P, R};
    }

    method EnqueueFor(to: Sock, data: bytes)
      requires Valid() && inPeers
      modifies this
      ensures Valid() && Value() == Enqueue(old(Value()), to, data) && inPeers
    {
      if transport == Tcp {
        buffers := buffers[to := Stream(buffers[to].data + data)];
      } else {
        buffers := buffers[to := Queue(buffers[to].datagrams + [data])];
      }
      got := got[to := Join(got[to], Item(transport, data))];
    }

    /** False when send raised: the datagram is back at the head, or the stream is broken. */
    method WriteChunkTo(e: Event) returns (ok: bool)
      requires Valid() && inPeers && HasPending(buffers[e.sock])
      modifies this
      ensures Valid() && ok == (e.send.Accepted? || transport == Udp)
      ensures Value() == (if ok then WriteChunk(old(Value()), e) else old(Value())) && inPeers
    {
      var s := e.sock;
      if transport == Tcp {
        if !e.send.Accepted? {
          return false;
        }
        var buf := buffers[s].data;
        var n := Min(e.send.n, |buf|);
        buffers := buffers[s := Stream(buf[n..])];
        sent := sent[s := Stream(sent[s].data + buf[..n])];
        return true;
      }
      var queue := buffers[s].datagrams;
      var datagram := queue[0];
      queue := queue[1..];
      if !e.send.Accepted? {
        queue := [datagram] + queue;
      } else {
        sent := sent[s := Queue(sent[s].datagrams + [datagram])];
      }
      assert !e.send.Accepted? ==> queue == old(buffers[s].datagrams);
      buffers := buffers[s := Queue(queue)];
      assert e.send.Accepted? ==> old(buffers[s].datagrams)[..1] == [datagram];
      return true;
    }

    /** False ends the handling of this event. */
    method ReadFrom(e: Event) returns (more: bool)
      requires Valid() && inPeers
      modifies this
      ensures Valid() && (Value(), more) == Read(old(Value()), e)
    {
      var peer := e.sock.Peer();
      hide Close, SetArmed, SetStreak, Drain, Enqueue;
      match e.recv {
        case Data(data) =>
          if transport == Tcp && data == [] {
            PushOut(peer, e.drained);
            ClosePair();
            return false;
          }
          if transport == Udp {
            SetStreakTo(e.sock, 0);
          }
          EnqueueFor(peer, data);
          if e.armable {
            Arm(peer);
          }
          return true;
        case NoData =>
          return true;
        case RecvError =>
          if transport == Udp {
            SetStreakTo(e.sock, streak[e.sock] + 1);
            if streak[e.sock] >= ECONNREFUSED_LIMIT {
              ClosePair();
            }
            return false;
          }
          ClosePair();
          return false;
      }
    }

    method WriteTo(e: Event)
      requires Valid() && inPeers
      modifies this
      ensures Valid() && Value() == Write(old(Value()), e)
    {
      if !HasPending(buffers[e.sock]) {
        Disarm(e.sock);
        return;
      }
      hide WriteChunk, Close, SetArmed;
      WriteChunkShape(Value(), e);
      var ok := WriteChunkTo(e);
      if !ok {
        ClosePair();
      } else if !HasPending(buffers[e.sock]) {
        Disarm(e.sock);
      }
    }

    method Disarm(s: Sock)
      requires Valid()
      modifies this
      ensures Valid() && Value() == SetArmed(old(Value()), s, false) && inPeers == old(inPeers)
    {
      writeArmed := writeArmed - {s};
    }

    method Arm(s: Sock)
      requires Valid()
      modifies this
      ensures Valid() && Value() == SetArmed(old(Value()), s, true) && inPeers == old(inPeers)
    {
      writeArmed := writeArmed + {s};
    }

    method SetStreakTo(s: Sock, n: nat)
      requires Valid()
      modifies this
      ensures Valid() && Value() == SetStreak(old(Value()), s, n) && inPeers == old(inPeers)
    {
      streak := streak[s := n];
    }

    method PushOut(peer: Sock, drained: Option<nat>)
      requires Valid() && inPeers && transport == Tcp
      modifies this
      ensures Valid() && Value() == Drain(old(Value()), peer, drained) && inPeers
    {
      var pending := buffers[peer].data;
      var n := if drained == None then |pending| else Min(drained.value, |pending|);
      sent := sent[peer := Stream(sent[peer].data + pending[..n])];
      buffers := buffers[peer := Stream([])];
    }

    method HandleEvent(e: Event)
      requires Valid()
      modifies this
      ensures Valid() && Value() == Handle(old(Value()), e)
    {
      if !inPeers {
        return;
      }
      var more := true;
      if e.readable {
        more := ReadFrom(e);
      }
      if more && e.writable {
        WriteTo(e);
      }
    }

    method CopyLoop(rounds: seq<Round>)
      requires Valid()
      modifies this
      ensures Valid() && Value() == Loop(old(Value()), rounds)
    {
      ghost var begin := Value();
      for i := 0 to |rounds|
        invariant Valid() && Value() == Loop(begin, rounds[..i])
      {
        assert rounds[..i + 1][..i] == rounds[..i];
        match rounds[i] {
          case StopSignal => ClosePair();
          case Wake(events) =>
            ghost var before := Value();
            for k := 0 to |events|
              invariant Valid() && Value() == HandleAll(before, events[..k])
            {
              assert events[..k + 1][..k] == events[..k];
              HandleEvent(events[k]);
            }
            assert events[..|events|] == events;
        }
      }
      assert rounds[..|rounds|] == rounds;
    }
  }
}
