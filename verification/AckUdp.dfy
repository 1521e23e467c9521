/** Acknowledged datagrams: a sequence number and a flag before each payload. */
module AckUdp {
  import opened Bytes

  const UDP_MAX_DICT_LEN := 1000

  type SeqNo = n: int | 0 <= n < 0x1_0000_0000_0000_0000

  function U64(n: SeqNo): (r: bytes)
    ensures |r| == 8
  {
    U32(n / 0x1_0000_0000) + U32(n % 0x1_0000_0000)
  }

  function ToU64(b: bytes): SeqNo
    requires |b| == 8
  {
    ToU32(b[..4]) * 0x1_0000_0000 + ToU32(b[4..])
  }

  lemma U64RoundTrip(n: SeqNo)
    ensures ToU64(U64(n)) == n
  {
    assert U64(n)[..4] == U32(n / 0x1_0000_0000) && U64(n)[4..] == U32(n % 0x1_0000_0000);
    hide U32, ToU32;
  }

  function DataFrame(n: SeqNo, data: bytes): bytes { U64(n) + [0] + data }

  function AckFrame(n: SeqNo): bytes { U64(n) + [1] }

  // --- Decoding ---------------------------------------------------------------------------

  /** The number an ACK acknowledges, or None for anything else. */
  function IsAck(data: bytes): Option<SeqNo> {
    if |data| >= 9 && data[8] == 1 then Some(ToU64(data[..8])) else None
  }

  datatype Ackable = Malformed | Message(number: SeqNo, ack: Option<bytes>, payload: bytes)

  function IsAckable(data: bytes): Ackable {
    if |data| < 9 then Malformed
    else Message(ToU64(data[..8]), if data[8] == 0 then Some(U64(ToU64(data[..8])) + [1]) else None, data[9..])
  }

  lemma FramesDecode(n: SeqNo, data: bytes)
    ensures IsAck(DataFrame(n, data)) == None && IsAckable(DataFrame(n, data)) == Message(n, Some(AckFrame(n)), data)
    ensures IsAck(AckFrame(n)) == Some(n)
  {
    U64RoundTrip(n);
    assert DataFrame(n, data)[..8] == U64(n) && DataFrame(n, data)[9..] == data && AckFrame(n)[..8] == U64(n);
    hide U64, ToU64;
  }

  // --- One endpoint -------------------------------------------------------------------------

  /** Events by number, true once set. */
  type Events = map<SeqNo, bool>

  function Prune(events: Events): Events {
    if |events| > UDP_MAX_DICT_LEN then map n | n in events && !events[n] :: false else events
  }

  /** What a datagram leads to: the events after it, a status, the payload handed up, and
      the ACK sent back. */
  datatype Handled = Handled(events: Events, status: nat, payload: Option<bytes>, ack: Option<bytes>)

  function Handle(events: Events, data: bytes): Handled {
    match IsAck(data)
    case Some(n) => Handled(if n in events then events[n := true] else events, 0, None, None)
    case None =>
      match IsAckable(data)
      case Malformed => Handled(events, 0, None, None)
      case Message(n, ack, payload) =>
        if ack != None && n !in events then Handled(Prune(events), 2, Some(payload), ack)
        else Handled(Prune(if ack != None then events[n := true] else events), 1, Some(payload), None)
  }

  // What the worker of one send finds when it looks up from waiting.
  datatype Wait = Gone | Woken | TimedOut(elapsed: nat)

  class AckUdp {
    var events: Events

    constructor ()
      ensures events == map[]
    {
      events := map[];
    }

    method HandleAck(data: bytes) returns (status: nat, payload: Option<bytes>, ack: Option<bytes>)
      modifies this
      ensures Handled(events, status, payload, ack) == Handle(old(events), data)
    {
      var acked := IsAck(data);
      if acked != None {
        if acked.value in events {
          events := events[acked.value := true];
        }
        return 0, None, None;
      }
      var message := IsAckable(data);
      if message == Malformed {
        return 0, None, None;
      }
      payload, ack := Some(message.payload), message.ack;
      if ack != None && message.number in events {
        events := events[message.number := true];
        ack := None;
      }
      if |events| > UDP_MAX_DICT_LEN {
        events := map n | n in events && !events[n] :: false;
      }
      if ack != None {
        return 2, payload, ack;
      }
      return 1, payload, None;
    }

    /** ack_send: a new event waits for the number's ACK. */
    method Register(n: SeqNo)
      modifies this
      ensures events == old(events)[n := false]
    {
      events := events[n := false];
    }

    /** The worker of one send: how often it transmits before it gives up or is woken,
        given what each wait brings; its entry is gone afterwards. */
    method Worker(n: SeqNo, tries: int, sockTimeout: nat, waits: seq<Wait>) returns (transmits: nat)
      modifies this
      ensures 1 <= transmits <= if tries < 1 then 1 else tries
      ensures transmits == Transmits(tries, sockTimeout, waits, 1)
      ensures events == old(events) - {n}
    {
      transmits := 0;
      while true
        invariant transmits == 0 || transmits < tries
        invariant Transmits(tries, sockTimeout, waits, 1) == Transmits(tries, sockTimeout, waits, transmits + 1)
        invariant events == old(events)
        decreases tries - transmits
      {
        transmits := transmits + 1;
        if transmits >= tries {
          break;
        }
        var wait := if transmits <= |waits| then waits[transmits - 1] else TimedOut(0);
        if wait != TimedOut(0) && !wait.TimedOut? {
          break;
        }
        if sockTimeout > 0 && wait.elapsed >= sockTimeout {
          break;
        }
      }
      events := events - {n};
    }
  }

  /** The number of transmissions, counted from the k-th one on. */
  function Transmits(tries: int, sockTimeout: nat, waits: seq<Wait>, k: nat): nat
    decreases tries - k
  {
    if k >= tries then k
    else
      match (if 0 < k <= |waits| then waits[k - 1] else TimedOut(0))
      case TimedOut(elapsed) => if sockTimeout > 0 && elapsed >= sockTimeout then k else Transmits(tries, sockTimeout, waits, k + 1)
      case _ => k
  }

  /** Pruning drops only events that are set, and sets none. */
  lemma PruneOnlySet(events: Events, n: SeqNo)
    ensures n in events && !events[n] ==> n in Prune(events) && !Prune(events)[n]
    ensures n in Prune(events) ==> n in events && Prune(events)[n] == events[n]
  {
  }

  /** An ACK is never acknowledged, and neither is a message that carries one of our own numbers. */
  lemma NoAckForAck(events: Events, data: bytes)
    ensures Handle(events, data).ack != None <==> |data| >= 9 && data[8] == 0 && ToU64(data[..8]) !in events
    ensures Handle(events, data).ack != None ==>
              Handle(events, data).ack == Some(AckFrame(ToU64(data[..8])))
              && IsAck(Handle(events, data).ack.value) == Some(ToU64(data[..8]))
  {
    if |data| >= 9 { FramesDecode(ToU64(data[..8]), []); }
    hide U64, ToU64, Prune;
  }

  /** Eight octets of number, high octet first, then 0 and the payload for a message, 1 for an ACK. */
  lemma FrameLayout(n: SeqNo, data: bytes)
    ensures Be64(DataFrame(n, data)) == n && DataFrame(n, data)[8..] == [0] + data
    ensures Be64(AckFrame(n)) == n && AckFrame(n)[8..] == [1]
  {
    U64Octets(n);
    assert DataFrame(n, data)[8..] == [0] + data && AckFrame(n)[8..] == [1];
    assert DataFrame(n, data)[..8] == U64(n) && AckFrame(n)[..8] == U64(n);
    Leading(U64(n), [0] + data);
    Leading(U64(n), [1]);
    assert U64(n) + ([0] + data) == DataFrame(n, data);
    hide Be64, U64;
  }

  function Be64(b: bytes): nat
    requires |b| >= 8
  {
    ((((((((b[0] as int) * 256 + b[1]) * 256 + b[2]) * 256 + b[3]) * 256 + b[4]) * 256 + b[5]) * 256 + b[6]) * 256) + b[7]
  }

  lemma Leading(a: bytes, b: bytes)
    requires |a| == 8
    ensures Be64(a + b) == Be64(a)
  {
  }

  lemma U64Octets(n: SeqNo)
    ensures Be64(U64(n)) == n
  {
    var hi, lo := n / 0x1_0000_0000, n % 0x1_0000_0000;
    U32Octets(hi);
    U32Octets(lo);
    var h, l := U32(hi), U32(lo);
    hide U32;
    assert U64(n) == h + l;
  }

  lemma U32Octets(n: int)
    requires 0 <= n < 0x1_0000_0000
    ensures var b := U32(n); (((b[0] as int) * 256 + b[1]) * 256 + b[2]) * 256 + b[3] == n
  {
    var b := U32(n);
    assert b[..2] == U16(n / 0x1_0000) && b[2..] == U16(n % 0x1_0000);
    assert b[0] == b[..2][0] && b[1] == b[..2][1] && b[2] == b[2..][0] && b[3] == b[2..][1];
  }

  /** Everything a datagram can do: an ACK sets its event if there is one; too short a datagram
      does nothing; a message is handed up, and acknowledged unless its number is one of
      our own, which counts as an ACK; any other flag is handed up unacknowledged. */
  lemma HandleTable(events: Events, data: bytes)
    ensures |data| < 9 ==> Handle(events, data) == Handled(events, 0, None, None)
    ensures |data| >= 9 ==>
              var n := ToU64(data[..8]);
              var set1 := if n in events then events[n := true] else events;
              Handle(events, data)
              == if data[8] == 1 then Handled(set1, 0, None, None)
                 else if data[8] == 0 && n !in events then Handled(Prune(events), 2, Some(data[9..]), Some(data[..8] + [1]))
                 else Handled(Prune(if data[8] == 0 then set1 else events), 1, Some(data[9..]), None)
  {
    if |data| >= 9 { NumberBack(data[..8]); }
    hide U64, ToU64, Prune;
  }

  lemma NumberBack(b: bytes)
    requires |b| == 8
    ensures U64(ToU64(b)) == b
  {
    WordBack(b[..4]);
    WordBack(b[4..]);
    Halves(ToU32(b[..4]), ToU32(b[4..]));
    hide U32, ToU32;
    assert b[..4] + b[4..] == b;
  }

  lemma Halves(hi: nat, lo: nat)
    requires lo < 0x1_0000_0000
    ensures (hi * 0x1_0000_0000 + lo) / 0x1_0000_0000 == hi && (hi * 0x1_0000_0000 + lo) % 0x1_0000_0000 == lo
  {
  }

  lemma WordBack(b: bytes)
    requires |b| == 4
    ensures U32(ToU32(b)) == b
  {
    HalfBack(b[..2]);
    HalfBack(b[2..]);
    assert b[..2] + b[2..] == b;
    hide U16, ToU16;
  }

  lemma HalfBack(b: bytes)
    requires |b| == 2
    ensures U16(ToU16(b)) == b
  {
  }

  /** Up to a thousand events stay as they are; of more only those not yet set. */
  lemma PruneMeans(events: Events, n: SeqNo)
    ensures |events| <= 1000 ==> Prune(events) == events
    ensures |events| > 1000 ==> (n in Prune(events) <==> n in events && !events[n])
  {
  }

  /** Does the wait after the k-th transmission end the work? */
  predicate WaitEnds(sockTimeout: nat, waits: seq<Wait>, k: nat) {
    1 <= k <= |waits| && match waits[k - 1]
                         case TimedOut(elapsed) => sockTimeout > 0 && elapsed >= sockTimeout
                         case _ => true
  }

  predicate GoesOnAt(tries: int, sockTimeout: nat, waits: seq<Wait>, k: nat) {
    k < tries && !WaitEnds(sockTimeout, waits, k)
  }

  /** The worker transmits until its tries are used up or a wait ends the work, and not once more. */
  lemma {:induction false} TransmitsExactly(tries: int, sockTimeout: nat, waits: seq<Wait>, k: nat)
    requires k >= 1
    ensures var r := Transmits(tries, sockTimeout, waits, k);
            && r >= k && (r >= tries || WaitEnds(sockTimeout, waits, r))
            && forall j :: k <= j < r ==> GoesOnAt(tries, sockTimeout, waits, j)
    decreases tries - k
  {
    if k < tries && !WaitEnds(sockTimeout, waits, k) {
      TransmitsExactly(tries, sockTimeout, waits, k + 1);
      var r := Transmits(tries, sockTimeout, waits, k);
      assert r == Transmits(tries, sockTimeout, waits, k + 1);
      hide Transmits, WaitEnds;
      forall j | k <= j < r ensures GoesOnAt(tries, sockTimeout, waits, j) { }
    }
  }

  /** With nothing but time-outs, and no time limit, every try is used. */
  lemma AllTriesUsed(tries: int, waits: seq<Wait>)
    requires forall w :: w in waits ==> w.TimedOut?
    ensures Transmits(tries, 0, waits, 1) == if tries < 1 then 1 else tries
  {
    TransmitsExactly(tries, 0, waits, 1);
    var r := Transmits(tries, 0, waits, 1);
    hide Transmits;
    if 1 <= r <= |waits| { assert waits[r - 1] in waits; }
    assert r > 1 ==> GoesOnAt(tries, 0, waits, r - 1);
  }

  // --- Two endpoints --------------------------------------------------------------------------

  /** An endpoint with its past: everything it was asked to send, the numbers whose event
      was ever set, every payload handed up with its number, and every datagram it put out. */
  datatype Host = Host(events: Events, asked: map<SeqNo, bytes>, acked: set<SeqNo>, taken: set<(SeqNo, bytes)>, out: set<bytes>)

  const NEW_HOST := Host(map[], map[], {}, {}, {})

  datatype Pair = Pair(a: Host, b: Host)

  datatype Action =
    | Send(toB: bool, n: SeqNo, data: bytes)   // a new message, under a number never used before
    | Transmit(toB: bool, n: SeqNo)            // its worker sends it, for the first time or again
    | Finish(toB: bool, n: SeqNo)              // its worker cleans up
    | Arrive(toB: bool, frame: bytes)          // anything ever put out arrives, perhaps again

  function NewlySet(before: Events, after: Events): set<SeqNo> {
    set n | n in after && after[n] && (n !in before || !before[n])
  }

  /** x is the endpoint that acts: the one that sends, or the one a datagram arrives at. */
  function Act(x: Host, y: Host, act: Action): Host {
    match act
    case Send(_, n, data) =>
      if n in x.asked || n in y.asked then x
      else x.(events := x.events[n := false], asked := x.asked[n := data])
    case Transmit(_, n) =>
      if n !in x.asked then x else x.(out := x.out + {DataFrame(n, x.asked[n])})
    case Finish(_, n) =>
      x.(events := x.events - {n})
    case Arrive(_, frame) =>
      if frame !in y.out then x
      else
        var h := Handle(x.events, frame);
        x.(events := h.events,
           acked := x.acked + NewlySet(x.events, SetBy(x.events, frame)),
           taken := if h.payload == None then x.taken else x.taken + {(ToU64(frame[..8]), h.payload.value)},
           out := if h.ack == None then x.out else x.out + {h.ack.value})
  }

  /** The events after a datagram, before any pruning. */
  function SetBy(events: Events, data: bytes): Events {
    if |data| >= 9 && data[8] in {0, 1} && ToU64(data[..8]) in events then events[ToU64(data[..8]) := true] else events
  }

  function Step(p: Pair, act: Action): Pair {
    if (if act.Arrive? then act.toB else !act.toB) then p.(b := Act(p.b, p.a, act)) else p.(a := Act(p.a, p.b, act))
  }

  function Run(acts: seq<Action>): Pair {
    if acts == [] then Pair(NEW_HOST, NEW_HOST) else Step(Run(acts[..|acts| - 1]), acts[|acts| - 1])
  }

  /** x's datagrams are its messages, or ACKs for messages of y it has handed up. */
  ghost predicate FramesOk(x: Host, y: Host) {
    forall f :: f in x.out ==> IsMessageOf(f, x) || IsAckFor(f, x, y)
  }

  ghost predicate IsMessageOf(f: bytes, x: Host) { exists n :: n in x.asked && f == DataFrame(n, x.asked[n]) }

  ghost predicate IsAckFor(f: bytes, x: Host, y: Host) {
    exists n :: n in y.asked && (n, y.asked[n]) in x.taken && f == AckFrame(n)
  }

  /** What x believes acknowledged, y has handed up. */
  predicate AcksTrue(x: Host, y: Host) {
    forall n :: n in x.acked ==> n in x.asked && (n, x.asked[n]) in y.taken
  }

  /** What x handed up, y was asked to send. */
  predicate TakenTrue(x: Host, y: Host) {
    forall t :: t in x.taken ==> t.0 in y.asked && y.asked[t.0] == t.1
  }

  ghost predicate Half(x: Host, y: Host) {
    && FramesOk(x, y) && AcksTrue(x, y) && TakenTrue(x, y)
    && (forall n :: n in x.events ==> n in x.asked)
    && (forall n :: n in x.events && x.events[n] ==> n in x.acked)
    && (forall n :: n in x.asked ==> n !in y.asked)
  }

  ghost predicate Inv(p: Pair) { Half(p.a, p.b) && Half(p.b, p.a) }

  predicate Grows(x: Host, x': Host) {
    x.taken <= x'.taken && forall n :: n in x.asked ==> n in x'.asked && x'.asked[n] == x.asked[n]
  }

  /** What was true of the datagrams stays true. */
  lemma FramesStay(x: Host, x': Host, y: Host)
    requires FramesOk(x, y) && FramesOk(y, x) && Grows(x, x')
    ensures forall f :: f in x.out ==> IsMessageOf(f, x') || IsAckFor(f, x', y)
    ensures FramesOk(y, x')
  {
    hide DataFrame, AckFrame;
    forall f | f in x.out ensures IsMessageOf(f, x') || IsAckFor(f, x', y) { assert IsMessageOf(f, x) || IsAckFor(f, x, y); }
    forall f | f in y.out ensures IsMessageOf(f, y) || IsAckFor(f, y, x') { assert IsMessageOf(f, y) || IsAckFor(f, y, x); }
  }

  lemma ArriveKeeps(x: Host, y: Host, act: Action)
    requires Half(x, y) && Half(y, x) && act.Arrive? && act.frame in y.out
    ensures Half(Act(x, y, act), y) && Half(y, Act(x, y, act))
  {
    var f := act.frame;
    if IsMessageOf(f, y) {
      var n :| n in y.asked && f == DataFrame(n, y.asked[n]);
      MessageKeeps(x, y, act, n);
    } else {
      var n :| n in x.asked && (n, x.asked[n]) in y.taken && f == AckFrame(n);
      AckKeeps(x, y, act, n);
    }
  }

  lemma MessageKeeps(x: Host, y: Host, act: Action, n: SeqNo)
    requires Half(x, y) && Half(y, x) && act.Arrive? && act.frame in y.out
    requires n in y.asked && act.frame == DataFrame(n, y.asked[n])
    ensures Half(Act(x, y, act), y) && Half(y, Act(x, y, act))
  {
    MessageShape(x, y, act, n);
    hide Act, DataFrame, AckFrame;
    FramesTaken(x, Act(x, y, act), y, n);
    TakenKeeps(x, Act(x, y, act), y, n);
    hide *;
  }

  lemma TakenKeeps(x: Host, x': Host, y: Host, n: SeqNo)
    requires Half(x, y) && Half(y, x) && FramesOk(x', y) && FramesOk(y, x') && n in y.asked
    requires x' == x.(events := Prune(x.events), taken := x.taken + {(n, y.asked[n])}, out := x'.out)
    ensures Half(x', y) && Half(y, x')
  {
    hide FramesOk;
  }

  lemma FramesTaken(x: Host, x': Host, y: Host, n: SeqNo)
    requires FramesOk(x, y) && FramesOk(y, x) && n in y.asked
    requires x' == x.(events := x'.events, taken := x.taken + {(n, y.asked[n])}, out := x.out + {AckFrame(n)})
    ensures FramesOk(x', y) && FramesOk(y, x')
  {
    hide AckFrame;
    assert (n, y.asked[n]) in x'.taken;
    assert IsAckFor(AckFrame(n), x', y);
    FramesStay(x, x', y);
    hide IsMessageOf, IsAckFor;
  }

  lemma MessageShape(x: Host, y: Host, act: Action, n: SeqNo)
    requires act.Arrive? && act.frame in y.out && n in y.asked && act.frame == DataFrame(n, y.asked[n]) && n !in x.events
    ensures Act(x, y, act)
         == x.(events := Prune(x.events), taken := x.taken + {(n, y.asked[n])}, out := x.out + {AckFrame(n)})
  {
    FramesDecode(n, y.asked[n]);
    U64RoundTrip(n);
    assert act.frame[..8] == U64(n);
    assert SetBy(x.events, act.frame) == x.events;
    assert x.acked + NewlySet(x.events, x.events) == x.acked;
    hide DataFrame, AckFrame, U64, ToU64, Prune;
  }

  lemma AckKeeps(x: Host, y: Host, act: Action, n: SeqNo)
    requires Half(x, y) && Half(y, x) && act.Arrive? && act.frame in y.out
    requires n in x.asked && (n, x.asked[n]) in y.taken && act.frame == AckFrame(n)
    ensures Half(Act(x, y, act), y) && Half(y, Act(x, y, act))
  {
    AckShape(x, y, act, n);
    hide Act, AckFrame;
    QuietStep(x, Act(x, y, act), y);
    AckedKeeps(x, Act(x, y, act), y, n);
    hide *;
  }

  lemma AckShape(x: Host, y: Host, act: Action, n: SeqNo)
    requires act.Arrive? && act.frame in y.out && act.frame == AckFrame(n)
    ensures var x' := Act(x, y, act);
            && x' == x.(events := if n in x.events then x.events[n := true] else x.events, acked := x'.acked)
            && x.acked <= x'.acked <= x.acked + {n}
            && (n in x.events && !x.events[n] ==> n in x'.acked)
  {
    FramesDecode(n, []);
    U64RoundTrip(n);
    assert act.frame[..8] == U64(n);
    hide AckFrame, DataFrame, U64, ToU64, IsAckable;
  }

  lemma AckedKeeps(x: Host, x': Host, y: Host, n: SeqNo)
    requires Half(x, y) && Half(y, x) && FramesOk(x', y) && FramesOk(y, x')
    requires n in x.asked && (n, x.asked[n]) in y.taken
    requires x' == x.(events := if n in x.events then x.events[n := true] else x.events, acked := x'.acked)
    requires x.acked <= x'.acked <= x.acked + {n} && (n in x.events && !x.events[n] ==> n in x'.acked)
    ensures Half(x', y) && Half(y, x')
  {
    hide FramesOk;
  }

  // A step that puts nothing out leaves what is true of the datagrams.
  lemma QuietStep(x: Host, x': Host, y: Host)
    requires FramesOk(x, y) && FramesOk(y, x) && Grows(x, x') && x'.out == x.out
    ensures FramesOk(x', y) && FramesOk(y, x')
  {
    FramesStay(x, x', y);
    hide IsMessageOf, IsAckFor, Grows;
  }

  lemma SendKeeps(x: Host, y: Host, n: SeqNo, data: bytes)
    requires Half(x, y) && Half(y, x) && n !in x.asked && n !in y.asked
    ensures var x' := x.(events := x.events[n := false], asked := x.asked[n := data]); Half(x', y) && Half(y, x')
  {
    var x' := x.(events := x.events[n := false], asked := x.asked[n := data]);
    QuietStep(x, x', y);
    hide FramesOk;
  }

  lemma TransmitKeeps(x: Host, y: Host, n: SeqNo)
    requires Half(x, y) && Half(y, x) && n in x.asked
    ensures var x' := x.(out := x.out + {DataFrame(n, x.asked[n])}); Half(x', y) && Half(y, x')
  {
    hide DataFrame;
    var x' := x.(out := x.out + {DataFrame(n, x.asked[n])});
    FramesStay(x, x', y);
    assert IsMessageOf(DataFrame(n, x.asked[n]), x');
    hide IsMessageOf, IsAckFor;
  }

  lemma FinishKeeps(x: Host, y: Host, n: SeqNo)
    requires Half(x, y) && Half(y, x)
    ensures var x' := x.(events := x.events - {n}); Half(x', y) && Half(y, x')
  {
    QuietStep(x, x.(events := x.events - {n}), y);
    hide FramesOk;
  }

  lemma ActKeeps(x: Host, y: Host, act: Action)
    requires Half(x, y) && Half(y, x)
    ensures Half(Act(x, y, act), y) && Half(y, Act(x, y, act))
  {
    hide Half, Handle, DataFrame;
    match act
    case Send(_, n, data) => if n !in x.asked && n !in y.asked { SendKeeps(x, y, n, data); }
    case Transmit(_, n) => if n in x.asked { TransmitKeeps(x, y, n); }
    case Finish(_, n) => FinishKeeps(x, y, n);
    case Arrive(_, frame) => if frame in y.out { ArriveKeeps(x, y, act); }
  }

  lemma {:induction false} RunInv(acts: seq<Action>)
    ensures Inv(Run(acts))
  {
    if acts != [] {
      RunInv(acts[..|acts| - 1]);
      var p, act := Run(acts[..|acts| - 1]), acts[|acts| - 1];
      if (if act.Arrive? then act.toB else !act.toB) { ActKeeps(p.b, p.a, act); } else { ActKeeps(p.a, p.b, act); }
      hide Act, Half;
    }
  }

  /** A sender's event is set only after the peer has handed up exactly that payload, and
      whatever is handed up was sent, under that number, by the peer. */
  lemma {:induction false} Reliable(acts: seq<Action>, n: SeqNo)
    ensures var p := Run(acts);
            && (n in p.a.events && p.a.events[n] ==> n in p.a.acked) && AcksTrue(p.a, p.b)
            && (n in p.b.events && p.b.events[n] ==> n in p.b.acked) && AcksTrue(p.b, p.a)
            && TakenTrue(p.a, p.b) && TakenTrue(p.b, p.a)
  {
    RunInv(acts);
  }
}
