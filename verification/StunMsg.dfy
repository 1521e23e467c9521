/** The STUN message object, the loop over a reply, and the address a reply reports. */
module StunMsg {
  import opened Bytes
  import opened Bitwise
  import opened Stun
  import opened StunFormat

  const STUN_MAGIC_COOKIE: bytes := [0x21, 0x12, 0xA4, 0x42]

  // RFC 3489 has no cookie; the bytes "1234" stand in its place.
  const OLD_COOKIE: bytes := [0x31, 0x32, 0x33, 0x34]

  datatype Mode = RFC3489 | RFC5389 | RFC8489

  datatype Message = Message(msgType: bytes, msgCode: bytes, mode: Mode, msgLen: nat, cookie: bytes, txid: bytes, body: bytes)

  function Fresh(msgType: bytes, msgCode: bytes, mode: Mode, txid: bytes): Message {
    Message(msgType, msgCode, mode, 0, if mode == RFC3489 then OLD_COOKIE else STUN_MAGIC_COOKIE, txid, [])
  }

  function TypeField(m: Message): bytes {
    if m.mode == RFC3489 then m.msgType else Zip(And, Zip(Or, m.msgType, m.msgCode), [0x3f, 0xff])
  }

  function Pack(m: Message): (r: Result<bytes>) {
    if m.msgLen >= 0x1_0000 then StructError
    else Ok(TypeField(m) + U16(m.msgLen) + m.cookie + m.txid + m.body)
  }

  /** The message after reading buf into it, and what follows the message; a buffer
      shorter than a header changes nothing. */
  function Decode(m: Message, buf: bytes): (r: Result<(Message, Option<bytes>)>) {
    if |buf| < 20 then Ok((m, None))
    else
      var n := ToU16(buf[2..4]);
      var m1 := m.(msgType := buf[..2], msgLen := n, cookie := buf[4..8], txid := buf[8..20]);
      if n == 0 then Ok((m1, None))
      else if 20 + n > |buf| then ValueError
      else Ok((m1.(body := buf[20..20 + n]), Some(buf[20 + n..])))
  }

  // --- What a reply reports -----------------------------------------------------------------

  datatype Seen = Seen(rtup: Option<Endpoint>, ctup: Option<Endpoint>)

  function AddrOf(mask: Mask, code: bytes, data: Option<bytes>): Result<Option<Endpoint>> {
    match data
    case None => ValueError
    case Some(d) => (match DecodeAddr(mask, code, d) case Ok(r) => Ok(Some(r.0)) case _ => ValueError)
  }

  const UNMASKED := Mask([], [])

  /** Only the first mapped and the first changed address count. */
  function Attach(mask: Mask, s: Seen, attr: (bytes, Option<bytes>)): (r: Result<Seen>) {
    var (code, data) := attr;
    var rtup :=
      if s.rtup != None then Ok(s.rtup)
      else if code == XOR_MAPPED_ADDRESS || code == XOR_MAPPED_ADDRESS_X then AddrOf(mask, code, data)
      else if code == MAPPED_ADDRESS then AddrOf(UNMASKED, code, data)
      else Ok(None);
    var ctup :=
      if s.ctup == None && code == CHANGED_ADDRESS then AddrOf(UNMASKED, code, data) else Ok(s.ctup);
    match (rtup, ctup)
    case (Ok(r), Ok(c)) => Ok(Seen(r, c))
    case _ => ValueError
  }

  function AttachAll(mask: Mask, attrs: seq<(bytes, Option<bytes>)>): Result<Seen> {
    if attrs == [] then Ok(Seen(None, None)) else AttachNext(mask, AttachAll(mask, attrs[..|attrs| - 1]), attrs[|attrs| - 1])
  }

  function AttachNext(mask: Mask, r: Result<Seen>, attr: (bytes, Option<bytes>)): Result<Seen> {
    if r.Ok? then Attach(mask, r.value, attr) else ValueError
  }

  datatype Proto = Reply(seen: Seen, msg: Message, rest: Option<bytes>) | Failed | Hangs

  datatype Verdict = Fine(seen: Seen) | Bad | Endless

  /** What the attributes of a body come to. */
  function Judge(mask: Mask, body: bytes): Verdict {
    var reading := ReadAll(body, 0);
    var seen := AttachAll(mask, reading.attrs);
    if !seen.Ok? || reading.end == AtBadLength then Bad
    else if reading.end == NoProgress then Endless
    else Fine(seen.value)
  }

  function Process(blank: Message, buf: bytes): Proto {
    match Decode(blank, buf)
    case Ok((m, rest)) =>
      (match Judge(Mask(m.cookie, m.txid), m.body)
       case Fine(seen) => Reply(seen, m, rest)
       case Bad => Failed
       case Endless => Hangs)
    case _ => Failed
  }

  // --- The message object -----------------------------------------------------------------------

  class StunMessage {
    var msgType: bytes
    const msgCode: bytes
    const mode: Mode
    var msgLen: nat
    var cookie: bytes
    var txid: bytes
    var msg: bytes
    var attrCursor: nat

    ghost function Value(): Message
      reads this
    {
      Message(msgType, msgCode, mode, msgLen, cookie, txid, msg)
    }

    constructor (msgType: bytes, msgCode: bytes, mode: Mode, txid: bytes)
      ensures Value() == Fresh(msgType, msgCode, mode, txid) && attrCursor == 0
    {
      this.msgType, this.msgCode, this.mode, this.txid := msgType, msgCode, mode, txid;
      cookie := if mode == RFC3489 then OLD_COOKIE else STUN_MAGIC_COOKIE;
      msgLen, msg, attrCursor := 0, [], 0;
    }

    method Snapshot() returns (m: Message)
      ensures m == Value()
    {
      return Message(msgType, msgCode, mode, msgLen, cookie, txid, msg);
    }

    method WriteAttr(code: bytes, data: bytes) returns (ok: bool)
      modifies this`msgLen, this`msg
      ensures ok == (|data| < 0x1_0000)
      ensures msg == if ok then old(msg) + AttrBytes(Attr(code, data)) else old(msg)
      ensures msgLen - old(msgLen) == |msg| - |old(msg)|
    {
      if |data| >= 0x1_0000 {
        return false;
      }
      var padding := [];
      if |data| % 4 != 0 {
        padding := Zeros(4 - |data| % 4);
      }
      assert padding == Zeros(AttrPad(|data|));
      var buf := code + U16(|data|) + data + padding;
      msgLen := msgLen + |buf|;
      msg := msg + buf;
      return true;
    }

    method ReadAttr() returns (r: Read)
      modifies this`attrCursor
      ensures r == ReadAt(msg, old(attrCursor))
      ensures attrCursor == match r
                            case Got(_, _, _, next) => next
                            case NoHeader => old(attrCursor)
                            case BadLength => old(attrCursor) + 4
    {
      if |msg| == 0 || attrCursor + 3 > |msg| - 1 {
        return NoHeader;
      }
      var start := attrCursor;
      var code := msg[start..start + 2];
      var length := ToU16(msg[start + 2..start + 4]);
      attrCursor := attrCursor + 4;
      if length == 0 {
        return Got(code, 0, None, attrCursor);
      }
      if attrCursor + (length - 1) > |msg| - 1 {
        return BadLength;
      }
      var data := msg[attrCursor..attrCursor + length];
      var pad := 0;
      if length % 4 != 0 {
        pad := 4 - length % 4;
      }
      attrCursor := attrCursor + length + pad;
      return Got(code, length, Some(data), attrCursor);
    }

    method PackBytes() returns (r: Result<bytes>)
      ensures r == Pack(Value())
    {
      if msgLen >= 0x1_0000 {
        return StructError;
      }
      var field := if mode == RFC3489 then msgType else Zip(And, Zip(Or, msgType, msgCode), [0x3f, 0xff]);
      return Ok(field + U16(msgLen) + cookie + txid + msg);
    }

    method DecodeBytes(buf: bytes) returns (ok: bool, rest: Option<bytes>)
      modifies this
      ensures attrCursor == 0 && ok == Decode(old(Value()), buf).Ok?
      ensures ok ==> (Value(), rest) == Decode(old(Value()), buf).value
    {
      attrCursor := 0;
      if |buf| < 20 {
        return true, None;
      }
      msgType, msgLen, cookie, txid := buf[..2], ToU16(buf[2..4]), buf[4..8], buf[8..20];
      if msgLen == 0 {
        return true, None;
      }
      if 20 + (msgLen - 1) > |buf| - 1 {
        return false, None;
      }
      msg := buf[20..20 + msgLen];
      return true, Some(buf[20 + msgLen..]);
    }
  }

  lemma AttachSnoc(mask: Mask, attrs: seq<(bytes, Option<bytes>)>, attr: (bytes, Option<bytes>))
    ensures AttachAll(mask, attrs + [attr]) == AttachNext(mask, AttachAll(mask, attrs), attr)
  {
    assert (attrs + [attr])[..|attrs|] == attrs;
  }

  lemma {:induction false} AttachFails(mask: Mask, attrs: seq<(bytes, Option<bytes>)>, more: seq<(bytes, Option<bytes>)>)
    requires !AttachAll(mask, attrs).Ok?
    ensures !AttachAll(mask, attrs + more).Ok?
  {
    if more == [] {
      assert attrs + more == attrs;
    } else {
      AttachFails(mask, attrs, more[..|more| - 1]);
      assert (attrs + more)[..|attrs + more| - 1] == attrs + more[..|more| - 1];
    }
  }

  lemma DecodedLength(blank: Message, buf: bytes)
    requires blank.body == [] && blank.msgLen == 0 && Decode(blank, buf).Ok?
    ensures var m := Decode(blank, buf).value.0; |m.body| == m.msgLen
  {
  }

  /** The loop over a reply; where the original would read nothing for ever, this returns Hangs. */
  method StunProto(buf: bytes, txid: bytes) returns (r: Proto)
    ensures r == Process(Fresh([0, 1], [0, 0], RFC3489, txid), buf)
  {
    var msg := new StunMessage([0, 1], [0, 0], RFC3489, txid);
    var ok, rest := msg.DecodeBytes(buf);
    if !ok {
      return Failed;
    }
    hide Attach, ReadAt, Decode, AttachAll, Judge;
    DecodedLength(Fresh([0, 1], [0, 0], RFC3489, txid), buf);
    var mask := Mask(msg.cookie, msg.txid);
    var seen := Seen(None, None);
    ghost var m := msg.Value();
    ghost var attrs := [];
    NothingRead(mask, m.body);
    while msg.attrCursor < msg.msgLen - 1
      invariant msg.Value() == m && msg.msgLen == |msg.msg|
      invariant SoFar(mask, m.body, msg.attrCursor, attrs, seen)
      decreases |m.body| - msg.attrCursor
    {
      ReadStep(mask, m.body, msg.attrCursor, attrs, seen);
      var attr := msg.ReadAttr();
      match attr {
        case NoHeader => return Hangs;
        case BadLength => return Failed;
        case Got(code, _, data, _) =>
          var next := Attach(mask, seen, (code, data));
          if !next.Ok? {
            return Failed;
          }
          attrs := attrs + [(code, data)];
          seen := next.value;
      }
    }
    AllRead(mask, m.body, msg.attrCursor, attrs, seen);
    var reply := msg.Snapshot();
    return Reply(seen, reply, rest);
  }

  /** The attributes before the cursor have been read and taken in. */
  ghost predicate SoFar(mask: Mask, body: bytes, cursor: nat, attrs: seq<(bytes, Option<bytes>)>, seen: Seen) {
    && AttachAll(mask, attrs) == Ok(seen)
    && ReadAll(body, 0).attrs == attrs + ReadAll(body, cursor).attrs && ReadAll(body, 0).end == ReadAll(body, cursor).end
  }

  lemma NothingRead(mask: Mask, body: bytes)
    ensures SoFar(mask, body, 0, [], Seen(None, None))
  {
  }

  lemma AllRead(mask: Mask, body: bytes, cursor: nat, attrs: seq<(bytes, Option<bytes>)>, seen: Seen)
    requires SoFar(mask, body, cursor, attrs, seen) && Eof(body, cursor)
    ensures Judge(mask, body) == Fine(seen)
  {
    assert attrs + [] == attrs;
  }

  lemma ReadStep(mask: Mask, body: bytes, cursor: nat, attrs: seq<(bytes, Option<bytes>)>, seen: Seen)
    requires SoFar(mask, body, cursor, attrs, seen) && !Eof(body, cursor)
    ensures match ReadAt(body, cursor)
            case NoHeader => Judge(mask, body) == Endless
            case BadLength => Judge(mask, body) == Bad
            case Got(code, _, data, next) =>
              var s := Attach(mask, seen, (code, data));
              if s.Ok? then SoFar(mask, body, next, attrs + [(code, data)], s.value) else Judge(mask, body) == Bad
  {
    hide Attach, ReadAt;
    match ReadAt(body, cursor)
    case Got(code, _, data, next) =>
      var rest := ReadAll(body, next).attrs;
      AttachSnoc(mask, attrs, (code, data));
      assert attrs + ([(code, data)] + rest) == attrs + [(code, data)] + rest;
      if !Attach(mask, seen, (code, data)).Ok? { AttachFails(mask, attrs + [(code, data)], rest); }
      hide AttachAll;
    case _ =>
      assert attrs + [] == attrs;
  }

  // --- Round trips ------------------------------------------------------------------------------

  /** A message whose attributes were written one after the other. */
  ghost predicate Written(m: Message, attrs: seq<Attr>) {
    && |m.msgType| == 2 && |m.msgCode| == 2 && |m.cookie| == 4 && |m.txid| == 12
    && Writable(attrs) && m.body == Body(attrs) && m.msgLen == |m.body|
  }

  /** Each write extends the body by one attribute. */
  lemma {:induction false} BodySnoc(attrs: seq<Attr>, a: Attr)
    requires Writable(attrs) && |a.data| < 0x1_0000
    ensures Body(attrs + [a]) == Body(attrs) + AttrBytes(a)
  {
    if attrs == [] {
      assert attrs + [a] == [a] && [a][1..] == [];
    } else {
      BodySnoc(attrs[1..], a);
      assert (attrs + [a])[1..] == attrs[1..] + [a];
    }
  }

  /** Packing and decoding give back the header, the attributes in order and what followed. */
  lemma MessageRoundTrip(m: Message, attrs: seq<Attr>, blank: Message, trailing: bytes)
    requires Written(m, attrs) && Pack(m).Ok? && blank.body == [] && blank.msgLen == 0
    ensures var r := Decode(blank, Pack(m).value + trailing);
            && r.Ok? && var (m', rest) := r.value;
            && m' == blank.(msgType := TypeField(m), msgLen := m.msgLen, cookie := m.cookie, txid := m.txid, body := m.body)
            && ReadAll(m'.body, 0) == Reading(AllShown(attrs), AtEof)
            && rest == if attrs == [] then None else Some(trailing)
  {
    var head := TypeField(m) + U16(m.msgLen) + m.cookie + m.txid;
    var buf := Pack(m).value + trailing;
    assert buf == head + (m.body + trailing);
    assert buf[..2] == TypeField(m) && buf[2..4] == U16(m.msgLen) && buf[4..8] == m.cookie && buf[8..20] == m.txid;
    assert buf[20..20 + m.msgLen] == m.body && buf[20 + m.msgLen..] == trailing;
    assert [] + Body(attrs) == Body(attrs);
    ReadBack([], attrs);
    BodyEmpty(attrs);
    hide TypeField, U16, ToU16, ReadAll, Body;
  }

  lemma BodyEmpty(attrs: seq<Attr>)
    requires Writable(attrs)
    ensures Body(attrs) == [] <==> attrs == []
  {
  }

  predicate IsAddress(code: bytes) {
    code in {MAPPED_ADDRESS, CHANGED_ADDRESS, XOR_MAPPED_ADDRESS, XOR_MAPPED_ADDRESS_X}
  }

  predicate NoAddresses(attrs: seq<Attr>) { forall i :: 0 <= i < |attrs| ==> !IsAddress(attrs[i].code) }

  lemma {:induction false} OthersIgnored(mask: Mask, s: seq<(bytes, Option<bytes>)>, attrs: seq<Attr>)
    requires AttachAll(mask, s).Ok? && NoAddresses(attrs)
    ensures AttachAll(mask, s + AllShown(attrs)) == AttachAll(mask, s)
  {
    if attrs == [] {
      assert s + AllShown(attrs) == s;
    } else {
      var last := |attrs| - 1;
      OthersIgnored(mask, s, attrs[..last]);
      ShownSnoc(s, attrs);
      OtherIgnored(mask, AttachAll(mask, s).value, attrs[last]);
      hide AttachAll, Attach, AllShown, Shown;
      AttachSnoc(mask, s + AllShown(attrs[..last]), Shown(attrs[last]));
    }
  }

  lemma ShownSnoc(s: seq<(bytes, Option<bytes>)>, attrs: seq<Attr>)
    requires attrs != []
    ensures var last := |attrs| - 1;
            s + AllShown(attrs) == (s + AllShown(attrs[..last])) + [Shown(attrs[last])]
  {
  }

  lemma OtherIgnored(mask: Mask, s: Seen, a: Attr)
    requires !IsAddress(a.code)
    ensures Attach(mask, s, Shown(a)) == Ok(s)
  {
    hide AddrOf;
  }

  /** A server's XOR-MAPPED-ADDRESS, as section 15.2 of RFC 5389 lays it out, reaches the client:
      whatever other attributes surround it, the reply is understood and reports exactly
      that address and port. */
  lemma MappedAddressArrives(m: Message, before: seq<Attr>, after: seq<Attr>, f: Family, e: Endpoint, txid: bytes, trailing: bytes)
    requires |e.0| == (if f == Inet then 4 else 16) && 0 <= e.1 < 0x1_0000 && NoAddresses(before) && NoAddresses(after)
    requires Written(m, before + [Attr([0x00, 0x20], XorAddress(m.cookie, m.txid, f, e.0, e.1))] + after) && Pack(m).Ok?
    ensures var r := Process(Fresh([0, 1], [0, 0], RFC3489, txid), Pack(m).value + trailing);
            r.Reply? && r.seen == Seen(Some(e), None) && r.rest == Some(trailing)
  {
    var mask := Mask(m.cookie, m.txid);
    var a := Attr([0x00, 0x20], XorAddress(m.cookie, m.txid, f, e.0, e.1));
    var attrs := before + [a] + after;
    WrittenIds(m, attrs);
    hide Pack, Written, XorAddress, Decode, ReadAll, AttachAll, AddrOf, TypeField;
    MessageRoundTrip(m, attrs, Fresh([0, 1], [0, 0], RFC3489, txid), trailing);
    CodedShown(m, f, e);
    ShownSplit(before, a, after);
    hide AllShown, Shown, NoAddresses, Attach;
    OneAddress(mask, before, Shown(a), after, e);
    JudgeFine(mask, m.body, AllShown(attrs), Seen(Some(e), None));
    hide Judge;
  }

  lemma ShownSplit(before: seq<Attr>, a: Attr, after: seq<Attr>)
    ensures AllShown(before + [a] + after) == AllShown(before) + [Shown(a)] + AllShown(after)
  {
  }

  lemma JudgeFine(mask: Mask, body: bytes, attrs: seq<(bytes, Option<bytes>)>, seen: Seen)
    requires ReadAll(body, 0) == Reading(attrs, AtEof) && AttachAll(mask, attrs) == Ok(seen)
    ensures Judge(mask, body) == Fine(seen)
  {
  }

  lemma WrittenIds(m: Message, attrs: seq<Attr>)
    requires Written(m, attrs)
    ensures |m.cookie| == 4 && |m.txid| == 12
  {
  }

  lemma OneAddress(mask: Mask, before: seq<Attr>, a: (bytes, Option<bytes>), after: seq<Attr>, e: Endpoint)
    requires NoAddresses(before) && NoAddresses(after)
    requires a.0 == XOR_MAPPED_ADDRESS && AddrOf(mask, a.0, a.1) == Ok(Some(e))
    ensures AttachAll(mask, AllShown(before) + [a] + AllShown(after)) == Ok(Seen(Some(e), None))
  {
    NothingRead(mask, []);
    OthersIgnored(mask, [], before);
    assert [] + AllShown(before) == AllShown(before);
    AttachSnoc(mask, AllShown(before), a);
    assert Attach(mask, Seen(None, None), a) == Ok(Seen(Some(e), None));
    hide AttachAll, AllShown;
    OthersIgnored(mask, AllShown(before) + [a], after);
    hide Attach;
  }

  lemma CodedShown(m: Message, f: Family, e: Endpoint)
    requires |m.cookie| == 4 && |m.txid| == 12 && |e.0| == IpLength(f) && 0 <= e.1 < 0x1_0000
    ensures var (code, data) := Shown(Attr([0x00, 0x20], XorAddress(m.cookie, m.txid, f, e.0, e.1)));
            code == XOR_MAPPED_ADDRESS && AddrOf(Mask(m.cookie, m.txid), code, data) == Ok(Some(e))
  {
    var mask := Mask(m.cookie, m.txid);
    assert |MaskBytes(mask)| == 20;
    XoredWrites(mask, f, e, XOR_MAPPED_ADDRESS);
    AddrRoundTrip(mask, f, e, XOR_MAPPED_ADDRESS);
    DecodesNonempty(mask, XOR_MAPPED_ADDRESS, XorAddress(m.cookie, m.txid, f, e.0, e.1));
    hide EncodeAddr, DecodeAddr, MaskBytes, XorAddress;
  }

  lemma DecodesNonempty(mask: Mask, code: bytes, data: bytes)
    requires DecodeAddr(mask, code, data).Ok?
    ensures data != []
  {
  }
}
