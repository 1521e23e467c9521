/** What passed the relay's sockets, read off the system calls alone.

    The relay's own record of what it read and sent is held here against a log that
    depends only on which calls an event makes and what they return, and one event's
    effect on buffers, registrations and error counts is stated outright. */
module RelayLog {
  import opened Bytes
  import opened Relay

  // --- The calls one event makes ----------------------------------------------------------

  /** The read ends the handling of the event: an error, or the end of a stream. */
  predicate ReadStops(t: Transport, e: Event) {
    e.readable && (e.recv == RecvError || (t == Tcp && e.recv == Data([])))
  }

  /** send is called, on the socket's own buffer. */
  predicate Offers(p: Pair, e: Event) {
    p.open && e.writable && !ReadStops(p.transport, e) && p.At(e.sock).buffer.Length() > 0
  }

  /** What recv gave for the socket s, that is, from its peer. */
  function Fetched(p: Pair, e: Event, s: Sock): (item: Buffer)
    ensures IsFor(item, p.transport)
  {
    if p.open && e.readable && e.recv.Data? && e.sock != s && !ReadStops(p.transport, e) then
      if p.transport == Tcp then Stream(e.recv.data) else Queue([e.recv.data])
    else Empty(p.transport)
  }

  /** What the calls got out to the socket s: the accepted beginning of a stream, one whole
      datagram, or, at the end of the other side's stream, what sendall got rid of. */
  function Took(p: Pair, e: Event, s: Sock): (took: Buffer)
    requires p.Shaped()
    ensures took.Length() <= p.At(s).buffer.Length() && IsFor(took, p.transport) && IsFor(p.At(s).buffer, p.transport)
  {
    var b := p.At(s).buffer;
    if Offers(p, e) && e.sock == s && e.send.Accepted? then
      if p.transport == Tcp then Stream(b.data[..Min(e.send.n, |b.data|)]) else Queue([b.datagrams[0]])
    else if p.open && e.readable && p.transport == Tcp && e.recv == Data([]) && e.sock != s then
      Stream(b.data[..if e.drained == None then |b.data| else Min(e.drained.value, |b.data|)])
    else Empty(p.transport)
  }

  /** What is still to be sent of b once took is out. */
  function After(b: Buffer, took: Buffer): Buffer
    requires took.Length() <= b.Length() && (b.Stream? <==> took.Stream?)
  {
    if b.Stream? then Stream(b.data[took.Length()..]) else Queue(b.datagrams[took.Length()..])
  }

  /** Which events end the pair. */
  predicate Ends(p: Pair, e: Event) {
    || (e.readable && p.transport == Tcp && (e.recv == RecvError || e.recv == Data([])))
    || (e.readable && p.transport == Udp && e.recv == RecvError && p.At(e.sock).streak + 1 >= 8)
    || (p.transport == Tcp && Offers(p, e) && !e.send.Accepted?)
  }

  /** UDP's count of errors in a row, set back by any datagram. */
  function StreakAfter(p: Pair, e: Event, s: Sock): nat {
    if p.transport == Tcp || e.sock != s || !e.readable then p.At(s).streak
    else
      match e.recv
      case RecvError => p.At(s).streak + 1
      case Data(_) => 0
      case NoData => p.At(s).streak
  }

  /** Is s registered for writing afterwards? */
  predicate ArmedAfter(p: Pair, e: Event, s: Sock)
    requires p.Shaped()
  {
    if e.sock != s then p.At(s).armed || (e.readable && e.recv.Data? && e.armable)
    else if e.writable && !ReadStops(p.transport, e) && Took(p, e, s).Length() == p.At(s).buffer.Length() then false
    else p.At(s).armed
  }

  // --- One event -----------------------------------------------------------------------------

  /** One leg after an event that leaves the pair open. */
  predicate LegAfter(p: Pair, e: Event, s: Sock, leg: Leg)
    requires p.Shaped()
  {
    && leg.buffer == Join(After(p.At(s).buffer, Took(p, e, s)), Fetched(p, e, s))
    && leg.armed == ArmedAfter(p, e, s) && leg.streak == StreakAfter(p, e, s)
  }

  /** The record of what was read and sent grows by what the calls gave and took. */
  predicate Logged(p: Pair, e: Event, s: Sock, leg: Leg)
    requires p.Shaped()
  {
    leg.got == Join(p.At(s).got, Fetched(p, e, s)) && leg.sent == Join(p.At(s).sent, Took(p, e, s))
  }

  // A read that leaves the write of the same event to come.
  lemma ReadGoesOn(p: Pair, e: Event)
    requires p.Shaped() && p.open && e.readable && !ReadStops(p.transport, e)
    ensures var (q, more) := Read(p, e);
            && more && q.open && q.transport == p.transport && q.Shaped()
            && (e.recv == NoData ==> q == p)
            && (e.recv.Data? ==>
                  var item := if p.transport == Tcp then Stream(e.recv.data) else Queue([e.recv.data]);
                  var a, b := p.At(e.sock), p.At(e.sock.Peer());
                  && q.At(e.sock) == a.(streak := if p.transport == Udp then 0 else a.streak)
                  && q.At(e.sock.Peer()) == b.(buffer := Join(b.buffer, item), got := Join(b.got, item), armed := b.armed || e.armable))
  {
  }

  lemma ReadEnds(p: Pair, e: Event)
    requires p.Shaped() && p.open && e.readable && ReadStops(p.transport, e)
    ensures var (q, more) := Read(p, e);
            && !more && q.transport == p.transport && (q.open <==> !Ends(p, e))
            && (q.open ==> p.transport == Udp && q == SetStreak(p, e.sock, p.At(e.sock).streak + 1))
            && forall s: Sock :: Logged(p, e, s, q.At(s)) && (!q.open ==> q.At(s).buffer == Empty(p.transport) && !q.At(s).armed)
  {
    NothingJoined(p, P);
    NothingJoined(p, R);
    hide Join, Min;
  }

  lemma NothingJoined(p: Pair, s: Sock)
    requires p.Shaped()
    ensures var leg := p.At(s);
            && Join(leg.got, Empty(p.transport)) == leg.got && Join(leg.sent, Empty(p.transport)) == leg.sent
            && Join(leg.buffer, Empty(p.transport)) == leg.buffer && After(leg.buffer, Empty(p.transport)) == leg.buffer
  {
  }

  /** The socket's leg after its send: what the call took has moved, and an empty buffer is no
      longer registered. */
  function Served(p: Pair, e: Event): Leg
    requires p.Shaped()
  {
    var leg, took := p.At(e.sock), Took(p, e, e.sock);
    leg.(buffer := After(leg.buffer, took), sent := Join(leg.sent, took),
         armed := leg.armed && took.Length() < leg.buffer.Length())
  }

  lemma Writes(p: Pair, e: Event)
    requires p.Shaped() && p.open && e.writable && !ReadStops(p.transport, e)
    ensures Write(p, e) == if p.transport == Tcp && Offers(p, e) && !e.send.Accepted? then Close(p) else p.With(e.sock, Served(p, e))
  {
    var leg := p.At(e.sock);
    if leg.buffer.Length() == 0 {
      NothingJoined(p, e.sock);
      hide Join, After, WriteChunk;
    } else if e.send.Accepted? {
      WritesAccepted(p, e);
    } else {
      WritesRefused(p, e);
      hide Write, Served;
    }
  }

  lemma WritesRefused(p: Pair, e: Event)
    requires p.Shaped() && p.open && e.writable && !ReadStops(p.transport, e)
    requires p.At(e.sock).buffer.Length() > 0 && !e.send.Accepted?
    ensures Write(p, e) == if p.transport == Tcp then Close(p) else p.With(e.sock, Served(p, e))
  {
    NothingJoined(p, e.sock);
    hide Join, After, Sent;
  }

  lemma WritesAccepted(p: Pair, e: Event)
    requires p.Shaped() && p.open && e.writable && !ReadStops(p.transport, e)
    requires p.At(e.sock).buffer.Length() > 0 && e.send.Accepted?
    ensures Write(p, e) == p.With(e.sock, Served(p, e))
  {
    var leg := p.At(e.sock);
    var n := if p.transport == Tcp then Min(e.send.n, leg.buffer.Length()) else 1;
    ChunkOut(leg, p.transport, n);
    hide Sent, Join;
    assert WriteChunk(p, e) == p.With(e.sock, Sent(leg, n));
    hide WriteChunk;
  }

  // What Sent does to a leg, in terms of what left it.
  lemma ChunkOut(leg: Leg, t: Transport, n: nat)
    requires Fits(t, leg) && n <= leg.buffer.Length()
    ensures var took := if t == Tcp then Stream(leg.buffer.data[..n]) else Queue(leg.buffer.datagrams[..n]);
            Sent(leg, n) == leg.(buffer := After(leg.buffer, took), sent := Join(leg.sent, took))
  {
  }

  predicate Emptied(p: Pair, q: Pair) {
    && q.legP.buffer == Empty(p.transport) && !q.legP.armed && q.legR.buffer == Empty(p.transport) && !q.legR.armed
  }

  /** The leg of the event's own socket, and of its peer, when the event goes on to its write. */
  function OwnLeg(p: Pair, e: Event): Leg
    requires p.Shaped()
  {
    (if e.writable then Served(p, e) else p.At(e.sock)).(streak := StreakAfter(p, e, e.sock))
  }

  function PeerLeg(p: Pair, e: Event): Leg
    requires p.Shaped()
  {
    var b := p.At(e.sock.Peer());
    var item := Fetched(p, e, e.sock.Peer());
    b.(buffer := Join(b.buffer, item), got := Join(b.got, item), armed := b.armed || (e.readable && e.recv.Data? && e.armable))
  }

  lemma OwnArmed(p: Pair, e: Event)
    requires p.Shaped() && p.open && !ReadStops(p.transport, e)
    ensures OwnLeg(p, e).armed == ArmedAfter(p, e, e.sock)
  {
    hide Join, After, Took, StreakAfter;
  }

  // Nothing is fetched for the socket that is read; without a write nothing is taken.
  lemma OwnIdle(p: Pair, e: Event)
    requires p.Shaped() && p.open && !ReadStops(p.transport, e)
    ensures Fetched(p, e, e.sock) == Empty(p.transport) && (!e.writable ==> Took(p, e, e.sock) == Empty(p.transport))
  {
  }

  lemma OwnBooks(p: Pair, e: Event)
    requires p.Shaped() && p.open && !ReadStops(p.transport, e)
    ensures var leg, own, took := p.At(e.sock), OwnLeg(p, e), Took(p, e, e.sock);
            own.buffer == After(leg.buffer, took) && own.got == leg.got && own.sent == Join(leg.sent, took)
  {
    NothingJoined(p, e.sock);
    OwnIdle(p, e);
    hide Join, After, Took, StreakAfter, Empty, ReadStops;
  }

  lemma OwnRight(p: Pair, e: Event)
    requires p.Shaped() && p.open && !ReadStops(p.transport, e)
    ensures LegAfter(p, e, e.sock, OwnLeg(p, e)) && Logged(p, e, e.sock, OwnLeg(p, e))
  {
    OwnArmed(p, e);
    OwnIdle(p, e);
    OwnBooks(p, e);
    OwnStreak(p, e);
    JoinedNothing(p.transport, After(p.At(e.sock).buffer, Took(p, e, e.sock)));
    JoinedNothing(p.transport, p.At(e.sock).got);
    hide *;
    IsRight(p, e, e.sock, OwnLeg(p, e));
  }

  lemma IsRight(p: Pair, e: Event, s: Sock, leg: Leg)
    requires p.Shaped()
    requires leg.buffer == Join(After(p.At(s).buffer, Took(p, e, s)), Fetched(p, e, s))
    requires leg.armed == ArmedAfter(p, e, s) && leg.streak == StreakAfter(p, e, s)
    requires leg.got == Join(p.At(s).got, Fetched(p, e, s)) && leg.sent == Join(p.At(s).sent, Took(p, e, s))
    ensures LegAfter(p, e, s, leg) && Logged(p, e, s, leg)
  {
  }

  lemma OwnStreak(p: Pair, e: Event)
    requires p.Shaped()
    ensures OwnLeg(p, e).streak == StreakAfter(p, e, e.sock)
  {
    hide StreakAfter, Served;
  }

  lemma JoinedNothing(t: Transport, b: Buffer)
    requires IsFor(b, t)
    ensures Join(b, Empty(t)) == b
  {
  }

  // Nothing is taken from the peer, and its streak stays.
  lemma PeerIdle(p: Pair, e: Event)
    requires p.Shaped() && p.open && !ReadStops(p.transport, e)
    ensures var s := e.sock.Peer();
            && Took(p, e, s) == Empty(p.transport) && StreakAfter(p, e, s) == p.At(s).streak
            && PeerLeg(p, e).armed == ArmedAfter(p, e, s)
  {
    hide Join;
  }

  lemma PeerRight(p: Pair, e: Event)
    requires p.Shaped() && p.open && !ReadStops(p.transport, e)
    ensures LegAfter(p, e, e.sock.Peer(), PeerLeg(p, e)) && Logged(p, e, e.sock.Peer(), PeerLeg(p, e))
  {
    NothingJoined(p, e.sock.Peer());
    PeerIdle(p, e);
    hide Join, After, Took, Fetched, ArmedAfter, StreakAfter, Empty, ReadStops;
  }

  lemma AfterRead(p: Pair, e: Event)
    requires p.Shaped() && p.open && e.readable && !ReadStops(p.transport, e)
    ensures var q := Read(p, e).0;
            && Read(p, e).1 && q.open && q.Shaped() && q.transport == p.transport
            && q.At(e.sock) == p.At(e.sock).(streak := StreakAfter(p, e, e.sock)) && q.At(e.sock.Peer()) == PeerLeg(p, e)
  {
    NothingJoined(p, e.sock.Peer());
    ReadGoesOn(p, e);
    hide Join, Read;
  }

  lemma ServedLater(p: Pair, q: Pair, e: Event)
    requires p.Shaped() && q.Shaped() && p.open && q.open && p.transport == q.transport
    requires q.At(e.sock) == p.At(e.sock).(streak := q.At(e.sock).streak)
    ensures Served(q, e) == Served(p, e).(streak := q.At(e.sock).streak) && (Offers(q, e) <==> Offers(p, e))
  {
    hide Join, After;
  }

  predicate SameLog(a: Leg, b: Leg) { a.got == b.got && a.sent == b.sent }

  lemma RefusedLog(p: Pair, e: Event)
    requires p.Shaped() && Ends(p, e) && !ReadStops(p.transport, e)
    ensures SameLog(Served(p, e), p.At(e.sock))
  {
    NothingJoined(p, e.sock);
    hide Join, After;
  }

  lemma GoesOn(p: Pair, e: Event)
    requires p.Shaped() && p.open && !ReadStops(p.transport, e)
    ensures var q := Handle(p, e);
            if Ends(p, e) then
              !q.open && Emptied(p, q) && SameLog(q.At(e.sock), OwnLeg(p, e)) && SameLog(q.At(e.sock.Peer()), PeerLeg(p, e))
            else q.open && q.At(e.sock) == OwnLeg(p, e) && q.At(e.sock.Peer()) == PeerLeg(p, e)
  {
    NothingJoined(p, e.sock.Peer());
    if e.readable { AfterRead(p, e); }
    var q := if e.readable then Read(p, e).0 else p;
    ServedLater(p, q, e);
    if Ends(p, e) { RefusedLog(p, e); }
    if e.writable { Writes(q, e); }
    hide Read, Write, Join, Served;
  }

  // An error on a UDP socket that is not yet one too many: only the count changes.
  lemma StoppedRight(p: Pair, e: Event)
    requires p.Shaped() && p.open && ReadStops(p.transport, e) && !Ends(p, e)
    ensures var q := SetStreak(p, e.sock, p.At(e.sock).streak + 1); LegAfter(p, e, P, q.legP) && LegAfter(p, e, R, q.legR)
  {
    StoppedLeg(p, e, P);
    StoppedLeg(p, e, R);
    hide LegAfter;
  }

  lemma StoppedLeg(p: Pair, e: Event, s: Sock)
    requires p.Shaped() && p.open && ReadStops(p.transport, e) && !Ends(p, e)
    ensures LegAfter(p, e, s, p.At(s).(streak := if s == e.sock then p.At(s).streak + 1 else p.At(s).streak))
  {
    NothingJoined(p, s);
    StoppedIdle(p, e, s);
    hide Join, After, Took, Fetched, ArmedAfter, StreakAfter, Empty, ReadStops, Ends;
  }

  lemma StoppedIdle(p: Pair, e: Event, s: Sock)
    requires p.Shaped() && p.open && ReadStops(p.transport, e) && !Ends(p, e)
    ensures Took(p, e, s) == Empty(p.transport) && Fetched(p, e, s) == Empty(p.transport)
    ensures ArmedAfter(p, e, s) == p.At(s).armed
    ensures StreakAfter(p, e, s) == if s == e.sock then p.At(s).streak + 1 else p.At(s).streak
  {
  }

  /** A closed pair ignores everything.  An event that ends the pair empties and disarms both
      sockets; any other leaves exactly what LegAfter says. */
  lemma EventTable(p: Pair, e: Event)
    requires p.Shaped()
    ensures var q := Handle(p, e);
            if !p.open then q == p
            else if Ends(p, e) then !q.open && Emptied(p, q)
            else q.open && LegAfter(p, e, P, q.legP) && LegAfter(p, e, R, q.legR)
  {
    if p.open {
      if ReadStops(p.transport, e) {
        ReadEnds(p, e);
        if !Ends(p, e) { StoppedRight(p, e); }
      } else {
        GoesOn(p, e);
        OwnRight(p, e);
        PeerRight(p, e);
      }
      hide Read, LegAfter, OwnLeg, PeerLeg, Emptied;
    }
  }

  /** Whatever the event, the record of what was read and sent grows by what the calls gave and took. */
  lemma EventLogged(p: Pair, e: Event, s: Sock)
    requires p.Shaped()
    ensures Logged(p, e, s, Handle(p, e).At(s))
  {
    NothingJoined(p, s);
    if p.open {
      if ReadStops(p.transport, e) {
        ReadEnds(p, e);
      } else {
        GoesOn(p, e);
        OwnRight(p, e);
        PeerRight(p, e);
      }
      hide Read, LegAfter, OwnLeg, PeerLeg, Emptied, Join;
    }
  }

  // --- Whole runs --------------------------------------------------------------------------------

  /** All that recv gave for s in the events of one wake-up, and all that the sends to s took. */
  function AllFetched(p: Pair, events: seq<Event>, s: Sock): (b: Buffer)
    requires p.Shaped()
    ensures IsFor(b, p.transport)
  {
    if events == [] then Empty(p.transport)
    else
      var init := events[..|events| - 1];
      AllTransportKept(p, init);
      Join(AllFetched(p, init, s), Fetched(HandleAll(p, init), events[|events| - 1], s))
  }

  function AllTook(p: Pair, events: seq<Event>, s: Sock): (b: Buffer)
    requires p.Shaped()
    ensures IsFor(b, p.transport)
  {
    if events == [] then Empty(p.transport)
    else
      var init := events[..|events| - 1];
      AllTransportKept(p, init);
      Join(AllTook(p, init, s), Took(HandleAll(p, init), events[|events| - 1], s))
  }

  /** The same over a run: what was read for s, and what went out to it. */
  function Inflow(t: Transport, rounds: seq<Round>, s: Sock): (b: Buffer)
    ensures IsFor(b, t)
  {
    if rounds == [] then Empty(t)
    else
      var init := rounds[..|rounds| - 1];
      TransportKept(Start(t), init);
      match rounds[|rounds| - 1]
      case StopSignal => Inflow(t, init, s)
      case Wake(events) => Join(Inflow(t, init, s), AllFetched(Loop(Start(t), init), events, s))
  }

  function Outflow(t: Transport, rounds: seq<Round>, s: Sock): (b: Buffer)
    ensures IsFor(b, t)
  {
    if rounds == [] then Empty(t)
    else
      var init := rounds[..|rounds| - 1];
      TransportKept(Start(t), init);
      match rounds[|rounds| - 1]
      case StopSignal => Outflow(t, init, s)
      case Wake(events) => Join(Outflow(t, init, s), AllTook(Loop(Start(t), init), events, s))
  }

  lemma JoinAssoc(a: Buffer, b: Buffer, c: Buffer)
    requires (a.Stream? <==> b.Stream?) && (b.Stream? <==> c.Stream?)
    ensures Join(Join(a, b), c) == Join(a, Join(b, c))
  {
    if a.Stream? {
      assert a.data + b.data + c.data == a.data + (b.data + c.data);
    } else {
      assert a.datagrams + b.datagrams + c.datagrams == a.datagrams + (b.datagrams + c.datagrams);
    }
  }

  lemma {:induction false} WakeLogged(p: Pair, events: seq<Event>, s: Sock)
    requires p.Shaped()
    ensures var leg := HandleAll(p, events).At(s);
            && leg.got == Join(p.At(s).got, AllFetched(p, events, s))
            && leg.sent == Join(p.At(s).sent, AllTook(p, events, s))
  {
    if events == [] {
      NothingJoined(p, s);
    } else {
      var init, e := events[..|events| - 1], events[|events| - 1];
      WakeLogged(p, init, s);
      AllTransportKept(p, init);
      var q := HandleAll(p, init);
      EventLogged(q, e, s);
      JoinAssoc(p.At(s).got, AllFetched(p, init, s), Fetched(q, e, s));
      JoinAssoc(p.At(s).sent, AllTook(p, init, s), Took(q, e, s));
      hide Join, Handle, Fetched, Took;
    }
  }

  /** In every run the relay's record of a socket is what the system calls gave and took. */
  lemma {:induction false} RunLogged(t: Transport, rounds: seq<Round>, s: Sock)
    ensures var leg := Loop(Start(t), rounds).At(s); leg.got == Inflow(t, rounds, s) && leg.sent == Outflow(t, rounds, s)
  {
    if rounds != [] {
      var init := rounds[..|rounds| - 1];
      RunLogged(t, init, s);
      TransportKept(Start(t), init);
      hide Join, AllFetched, AllTook, HandleAll;
      match rounds[|rounds| - 1]
      case StopSignal =>
      case Wake(events) => WakeLogged(Loop(Start(t), init), events, s);
    }
  }

  /** Conservation, on what the calls gave and took: what went out to a socket begins what was
      read for it, and while the pair is open exactly the rest is buffered. */
  lemma FlowConserved(t: Transport, rounds: seq<Round>, s: Sock)
    ensures var p := Loop(Start(t), rounds);
            && IsPrefix(Outflow(t, rounds, s), Inflow(t, rounds, s))
            && (p.open ==> IsFor(p.At(s).buffer, t) && Join(Outflow(t, rounds, s), p.At(s).buffer) == Inflow(t, rounds, s))
  {
    RunConserves(t, rounds);
    RunLogged(t, rounds, s);
    TransportKept(Start(t), rounds);
    hide Loop, Inflow, Outflow;
  }

  /** A stop signal closes the pair, and a closed pair stays closed and takes nothing. */
  lemma StopsForGood(t: Transport, rounds: seq<Round>, more: Round)
    ensures !Loop(Start(t), rounds + [StopSignal]).open
    ensures !Loop(Start(t), rounds).open ==> !Loop(Start(t), rounds + [more]).open
  {
    assert (rounds + [StopSignal])[..|rounds|] == rounds && (rounds + [more])[..|rounds|] == rounds;
    match more
    case StopSignal =>
    case Wake(events) => if !Loop(Start(t), rounds).open { ClosedIgnores(Loop(Start(t), rounds), events); }
  }

  lemma {:induction false} ClosedIgnores(p: Pair, events: seq<Event>)
    requires p.Shaped() && !p.open
    ensures HandleAll(p, events) == p
  {
    if events != [] { ClosedIgnores(p, events[..|events| - 1]); }
  }
}