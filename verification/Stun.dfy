/** STUN messages (RFC 5389 sections 6, 15 and 15.2): attributes, and addresses coded by exclusive or. */
module Stun {
  import opened Bytes
  import opened Bitwise

  const MAPPED_ADDRESS: bytes := [0x00, 0x01]
  const CHANGED_ADDRESS: bytes := [0x00, 0x05]
  const XOR_PEER_ADDRESS: bytes := [0x00, 0x12]
  const XOR_RELAYED_ADDRESS: bytes := [0x00, 0x16]
  const XOR_MAPPED_ADDRESS: bytes := [0x00, 0x20]
  const XOR_MAPPED_ADDRESS_X: bytes := [0x80, 0x20]

  // --- Addresses -----------------------------------------------------------------------

  datatype Family = Inet | Inet6

  /** Who to credit for an address: the cookie and transaction id of the message it is in. */
  datatype Mask = Mask(cookie: bytes, txid: bytes)

  type Endpoint = (bytes, int)

  function AttrFamily(data: bytes): Family {
    if |data| >= 2 && data[1] == 2 then Inet6 else Inet
  }

  function IpLength(f: Family): nat { if f == Inet then 4 else 16 }

  /** The address and port fields of an attribute. */
  function AddrBufs(f: Family, data: bytes): Result<(bytes, bytes)> {
    if |data| < 4 + IpLength(f) then ValueError else Ok((data[4..4 + IpLength(f)], data[2..4]))
  }

  function MaskBytes(mask: Mask): bytes { [0x00, 0x00, 0x21, 0x12] + mask.cookie + mask.txid }

  function ToEndpoint(f: Family, ip: bytes, port: bytes): Result<Endpoint> {
    if |ip| != IpLength(f) || |port| != 2 then ValueError else Ok((ip, ToU16(port)))
  }

  predicate XorCoded(code: bytes) { code in {XOR_MAPPED_ADDRESS, XOR_PEER_ADDRESS, XOR_RELAYED_ADDRESS} }

  /** The endpoint an attribute names, and the attribute unmasked. */
  function DecodeAddr(mask: Mask, code: bytes, data: bytes): (r: Result<(Endpoint, bytes)>) {
    var f := AttrFamily(data);
    var plain := if XorCoded(code) && mask.txid != [] then Zip(Xor, data, MaskBytes(mask)) else data;
    match AddrBufs(f, data)
    case Ok((ip, port)) =>
      (if code == XOR_MAPPED_ADDRESS_X then DecodeX(mask, f, ip, port, data)
       else
         match AddrBufs(f, plain)
         case Ok((ip', port')) =>
           (match ToEndpoint(f, ip', port') case Ok(e) => Ok((e, plain)) case _ => ValueError)
         case _ => ValueError)
    case _ => ValueError
  }

  /** Code 0x8020 is masked field by field, each from the start of cookie and transaction id. */
  function DecodeX(mask: Mask, f: Family, ip: bytes, port: bytes, data: bytes): Result<(Endpoint, bytes)> {
    match (XorOf(ip, mask.cookie + mask.txid), XorOf(port, mask.cookie + mask.txid))
    case (Ok(ip'), Ok(port')) =>
      (match ToEndpoint(f, ip', port') case Ok(e) => Ok((e, data)) case _ => ValueError)
    case _ => ValueError
  }

  function PlainAddr(f: Family, e: Endpoint): bytes
    requires 0 <= e.1 < 0x1_0000
  {
    (if f == Inet then [0, 1] else [0, 2]) + U16(e.1) + e.0
  }

  function EncodeAddr(mask: Mask, f: Family, e: Endpoint, code: bytes): (r: Result<bytes>) {
    if |e.0| != IpLength(f) then ValueError
    else if !(0 <= e.1 < 0x1_0000) then StructError
    else
      match DecodeAddr(mask, code, PlainAddr(f, e))
      case Ok(r) => Ok(r.1)
      case _ => ValueError
  }

  // Does the mask reach to the end of the attribute?
  predicate MaskReaches(mask: Mask, f: Family) { mask.txid == [] || |MaskBytes(mask)| >= 4 + IpLength(f) }

  lemma PlainAddrFields(f: Family, e: Endpoint)
    requires |e.0| == IpLength(f) && 0 <= e.1 < 0x1_0000
    ensures var d := PlainAddr(f, e);
            |d| == 4 + IpLength(f) && AttrFamily(d) == f && d[4..4 + IpLength(f)] == e.0 && d[2..4] == U16(e.1)
  {
    hide U16;
  }

  /** For the three codes masked as a whole: encoding works exactly when the mask is long
      enough, and decoding then gives back the address and the port. */
  lemma AddrRoundTrip(mask: Mask, f: Family, e: Endpoint, code: bytes)
    requires XorCoded(code) && |e.0| == IpLength(f) && 0 <= e.1 < 0x1_0000
    ensures EncodeAddr(mask, f, e, code).Ok? <==> MaskReaches(mask, f)
    ensures MaskReaches(mask, f) ==>
              DecodeAddr(mask, code, EncodeAddr(mask, f, e, code).value) == Ok((e, PlainAddr(f, e)))
  {
    PlainAddrFields(f, e);
    var plain, m := PlainAddr(f, e), MaskBytes(mask);
    if MaskReaches(mask, f) && mask.txid != [] {
      Unmasks(plain, m);
      var masked := Zip(Xor, plain, m);
      FamilyUnmasked(plain, m);
      assert EncodeAddr(mask, f, e, code) == Ok(masked);
    }
    hide PlainAddr, OnBytes, MaskBytes, U16, ToU16;
  }

  lemma FamilyUnmasked(data: bytes, m: bytes)
    requires |data| >= 2 && |m| >= 2 && m[0] == 0 && m[1] == 0
    ensures AttrFamily(Zip(Xor, data, m)) == AttrFamily(data)
  {
    XorBytes(data[1], 0);
    hide OnBytes;
  }

  /** For code 0x8020 encoding does not mask but decoding does: the endpoint comes back
      exactly when the mask is all zeros where it meets the fields. */
  lemma AddrXRoundTripIff(mask: Mask, f: Family, e: Endpoint)
    requires |e.0| == IpLength(f) && 0 <= e.1 < 0x1_0000 && |mask.cookie + mask.txid| >= IpLength(f)
    ensures var r := EncodeAddr(mask, f, e, XOR_MAPPED_ADDRESS_X);
            && r == Ok(PlainAddr(f, e))
            && var d := DecodeAddr(mask, XOR_MAPPED_ADDRESS_X, r.value);
            d.Ok? && (d.value.0 == e <==> forall i :: 0 <= i < IpLength(f) ==> (mask.cookie + mask.txid)[i] == 0)
  {
    PlainAddrFields(f, e);
    var m := mask.cookie + mask.txid;
    Unmasks(e.0, m);
    Unmasks(U16(e.1), m);
    SameU16(Zip(Xor, U16(e.1), m), U16(e.1));
    hide PlainAddr, OnBytes, U16, ToU16;
  }

  lemma SameU16(a: bytes, b: bytes)
    requires |a| == |b| == 2
    ensures ToU16(a) == ToU16(b) <==> a == b
  {
  }

  // --- Attributes ------------------------------------------------------------------------

  datatype Attr = Attr(code: bytes, data: bytes)

  function AttrPad(n: nat): nat { (4 - n % 4) % 4 }

  function AttrBytes(a: Attr): (r: bytes)
    requires |a.data| < 0x1_0000
    ensures |r| == |a.code| + 2 + |a.data| + AttrPad(|a.data|)
  {
    a.code + U16(|a.data|) + a.data + Zeros(AttrPad(|a.data|))
  }

  datatype Read = NoHeader | Got(code: bytes, length: nat, data: Option<bytes>, next: nat) | BadLength

  function ReadAt(msg: bytes, cursor: nat): (r: Read)
    ensures r.Got? ==> r.next >= cursor + 4
  {
    if cursor + 4 > |msg| then NoHeader
    else
      var n := ToU16(msg[cursor + 2..cursor + 4]);
      if n == 0 then Got(msg[cursor..cursor + 2], 0, None, cursor + 4)
      else if cursor + 4 + n > |msg| then BadLength
      else Got(msg[cursor..cursor + 2], n, Some(msg[cursor + 4..cursor + 4 + n]), cursor + 4 + n + AttrPad(n))
  }

  /** How reading the attributes of a body ends; NoProgress stands for the loop that never ends. */
  datatype End = AtEof | AtBadLength | NoProgress

  datatype Reading = Reading(attrs: seq<(bytes, Option<bytes>)>, end: End)

  predicate Eof(msg: bytes, cursor: nat) { cursor >= |msg| - 1 }

  function ReadAll(msg: bytes, cursor: nat): Reading
    decreases if cursor < |msg| then |msg| - cursor else 0
  {
    if Eof(msg, cursor) then Reading([], AtEof)
    else
      match ReadAt(msg, cursor)
      case NoHeader => Reading([], NoProgress)
      case BadLength => Reading([], AtBadLength)
      case Got(code, _, data, next) =>
        var rest := ReadAll(msg, next); Reading([(code, data)] + rest.attrs, rest.end)
  }

  function Body(attrs: seq<Attr>): bytes
    requires forall i :: 0 <= i < |attrs| ==> |attrs[i].data| < 0x1_0000
  {
    if attrs == [] then [] else AttrBytes(attrs[0]) + Body(attrs[1..])
  }

  predicate Writable(attrs: seq<Attr>) {
    forall i :: 0 <= i < |attrs| ==> |attrs[i].code| == 2 && |attrs[i].data| < 0x1_0000
  }

  // Reading shows an attribute without data as None.
  function Shown(a: Attr): (bytes, Option<bytes>) { (a.code, if a.data == [] then None else Some(a.data)) }

  function AllShown(attrs: seq<Attr>): seq<(bytes, Option<bytes>)> {
    seq(|attrs|, i requires 0 <= i < |attrs| => Shown(attrs[i]))
  }

  lemma ReadOne(before: bytes, a: Attr, after: bytes)
    requires |a.code| == 2 && |a.data| < 0x1_0000
    ensures ReadAt(before + AttrBytes(a) + after, |before|)
         == Got(a.code, |a.data|, Shown(a).1, |before| + |AttrBytes(a)|)
  {
    var msg := before + AttrBytes(a) + after;
    var k, n := |before|, |a.data|;
    assert AttrBytes(a) == a.code + (U16(n) + (a.data + Zeros(AttrPad(n))));
    assert msg[k..k + 2] == a.code;
    assert msg[k + 2..k + 4] == U16(n);
    assert msg[k + 4..k + 4 + n] == a.data;
    hide U16, ToU16;
  }

  lemma HeaderAhead(a: Attr)
    requires |a.code| == 2 && |a.data| < 0x1_0000
    ensures |AttrBytes(a)| >= 4
  {
  }

  lemma FirstShown(attrs: seq<Attr>)
    requires attrs != []
    ensures AllShown(attrs) == [Shown(attrs[0])] + AllShown(attrs[1..])
  {
  }

  /** Reading back what was written gives the same attributes in order, whatever their lengths. */
  lemma {:induction false} ReadBack(before: bytes, attrs: seq<Attr>)
    requires Writable(attrs)
    ensures ReadAll(before + Body(attrs), |before|) == Reading(AllShown(attrs), AtEof)
    decreases |attrs|
  {
    var msg := before + Body(attrs);
    if attrs == [] {
    } else {
      var rest := Body(attrs[1..]);
      assert msg == before + AttrBytes(attrs[0]) + rest;
      ReadOne(before, attrs[0], rest);
      HeaderAhead(attrs[0]);
      hide AttrBytes, ReadAt, Shown;
      ReadBack(before + AttrBytes(attrs[0]), attrs[1..]);
      assert before + AttrBytes(attrs[0]) + rest == msg && |before + AttrBytes(attrs[0])| == |before| + |AttrBytes(attrs[0])|;
      FirstShown(attrs);
      hide AllShown;
    }
  }

  // --- Does the loop end? ------------------------------------------------------------------

  /** With two or three octets left over the loop reads nothing and never ends; bodies of
      any other length are read to the end or rejected. */
  lemma {:induction false} LeftoverDecides(msg: bytes, cursor: nat)
    requires |msg| % 4 < 2 && cursor % 4 == 0
    ensures ReadAll(msg, cursor).end != NoProgress
    decreases if cursor < |msg| then |msg| - cursor else 0
  {
    if !Eof(msg, cursor) {
      Leftover(|msg|, cursor);
      NextAligned(msg, cursor);
      hide ReadAt;
      match ReadAt(msg, cursor)
      case Got(_, _, _, next) => LeftoverDecides(msg, next);
      case _ =>
    }
  }

  // Every attribute read ends on a multiple of four.
  lemma NextAligned(msg: bytes, cursor: nat)
    requires cursor % 4 == 0 && cursor + 4 <= |msg|
    ensures !ReadAt(msg, cursor).NoHeader?
    ensures ReadAt(msg, cursor).Got? ==> ReadAt(msg, cursor).next % 4 == 0
  {
    var n := ToU16(msg[cursor + 2..cursor + 4]);
    PadAligns(n);
    FourMore(cursor, n + AttrPad(n));
    FourMore(cursor, 0);
    hide AttrPad, ToU16;
  }

  lemma FourMore(a: nat, b: nat)
    requires a % 4 == 0 && b % 4 == 0
    ensures (a + 4 + b) % 4 == 0
  {
  }

  lemma Leftover(n: nat, cursor: nat)
    requires n % 4 < 2 && cursor % 4 == 0 && cursor < n - 1
    ensures cursor + 4 <= n
  {
  }

  lemma PadAligns(n: nat)
    ensures (n + AttrPad(n)) % 4 == 0
  {
  }

  lemma {:induction false} ZerosStick(n: nat, cursor: nat)
    requires n % 4 >= 2 && cursor % 4 == 0 && cursor <= n
    ensures ReadAll(Zeros(n), cursor).end == NoProgress
    decreases n - cursor
  {
    var msg := Zeros(n);
    if cursor + 4 <= n {
      assert msg[cursor + 2..cursor + 4] == [0, 0] && ToU16([0, 0]) == 0;
      ZerosStick(n, cursor + 4);
    }
  }

  /** The loop ends on every body of length n exactly when n leaves 0 or 1 modulo 4. */
  lemma TerminationIff(n: nat)
    ensures n % 4 < 2 <==> forall msg: bytes :: |msg| == n ==> ReadAll(msg, 0).end != NoProgress
  {
    if n % 4 < 2 {
      forall msg: bytes | |msg| == n ensures ReadAll(msg, 0).end != NoProgress { LeftoverDecides(msg, 0); }
    } else {
      ZerosStick(n, 0);
      assert |Zeros(n)| == n;
    }
  }
}
