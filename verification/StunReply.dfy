/** The octets of STUN messages and attributes (RFC 5389 sections 6 and 15), and what a reply
    is taken to say. */
module StunReply {
  import opened Bytes
  import opened Bitwise
  import opened Stun
  import opened StunMsg

  // --- Messages ----------------------------------------------------------------------------

  /** The cookie a new message carries; RFC 3489 mode puts "1234" in its place. */
  lemma FreshMeans(msgType: bytes, msgCode: bytes, mode: Mode, txid: bytes)
    ensures Fresh(msgType, msgCode, mode, txid)
         == Message(msgType, msgCode, mode, 0, if mode == RFC3489 then [49, 50, 51, 52] else [0x21, 0x12, 0xA4, 0x42], txid, [])
  {
  }

  /** Type, length, cookie, transaction id and body follow one another. */
  lemma PackLayout(m: Message)
    requires |m.msgType| == 2 && |m.msgCode| == 2
    ensures Pack(m).Ok? <==> m.msgLen < 65536
    ensures Pack(m).Ok? ==>
              var b := Pack(m).value;
              && |b| == 4 + |m.cookie| + |m.txid| + |m.body|
              && b[..2] == (if m.mode == RFC3489 then m.msgType
                            else [OnBytes(And, OnBytes(Or, m.msgType[0], m.msgCode[0]), 0x3f),
                                  OnBytes(And, OnBytes(Or, m.msgType[1], m.msgCode[1]), 0xff)])
              && (b[2] as int) * 256 + b[3] == m.msgLen && b[4..] == m.cookie + m.txid + m.body
  {
    hide OnBytes;
    if m.msgLen < 65536 {
      var b := Pack(m).value;
      assert b == TypeField(m) + U16(m.msgLen) + (m.cookie + m.txid + m.body);
      assert b[4..] == m.cookie + m.txid + m.body;
    }
  }

  /** What reading a buffer into a message changes: nothing below twenty octets, an error when
      the body is cut short, and without a body only the header. */
  lemma DecodeReads(m: Message, buf: bytes)
    ensures |buf| < 20 ==> Decode(m, buf) == Ok((m, None))
    ensures |buf| >= 20 ==>
              var n := (buf[2] as int) * 256 + buf[3];
              var head := m.(msgType := buf[..2], msgLen := n, cookie := buf[4..8], txid := buf[8..20]);
              Decode(m, buf)
              == if n == 0 then Ok((head, None))
                 else if |buf| < 20 + n then ValueError
                 else Ok((head.(body := buf[20..20 + n]), Some(buf[20 + n..])))
  {
  }

  // --- Attributes ----------------------------------------------------------------------------

  /** Code, length, data, and zeros up to a multiple of four. */
  lemma AttrLayout(a: Attr)
    requires |a.code| == 2 && |a.data| < 65536
    ensures var b := AttrBytes(a);
            && |b| % 4 == 0 && |a.data| + 4 <= |b| < |a.data| + 8
            && b[..2] == a.code && (b[2] as int) * 256 + b[3] == |a.data| && b[4..4 + |a.data|] == a.data
            && forall i :: 4 + |a.data| <= i < |b| ==> b[i] == 0
  {
    var b := AttrBytes(a);
    assert b == a.code + U16(|a.data|) + (a.data + Zeros(AttrPad(|a.data|)));
    assert b[2] == U16(|a.data|)[0] && b[3] == U16(|a.data|)[1];
    Rounded(|a.data|);
    hide AttrPad;
  }

  lemma Rounded(n: nat)
    ensures (4 + n + AttrPad(n)) % 4 == 0 && AttrPad(n) < 4
  {
  }

  /** One attribute read at the cursor, and where the next one begins. */
  lemma AttrReads(msg: bytes, cursor: nat)
    ensures cursor + 4 > |msg| ==> ReadAt(msg, cursor) == NoHeader
    ensures cursor + 4 <= |msg| ==>
              var n := (msg[cursor + 2] as int) * 256 + msg[cursor + 3];
              var code := msg[cursor..cursor + 2];
              if n == 0 then ReadAt(msg, cursor) == Got(code, 0, None, cursor + 4)
              else if cursor + 4 + n > |msg| then ReadAt(msg, cursor) == BadLength
              else
                var r := ReadAt(msg, cursor);
                && r == Got(code, n, Some(msg[cursor + 4..cursor + 4 + n]), r.next)
                && cursor + 4 + n <= r.next < cursor + 8 + n && (r.next - cursor) % 4 == 0
  {
    if cursor + 4 <= |msg| { Rounded((msg[cursor + 2] as int) * 256 + msg[cursor + 3]); }
    hide AttrPad;
  }

  // --- What a reply says ------------------------------------------------------------------------

  type AttrRead = (bytes, Option<bytes>)

  predicate Mapped(code: bytes) { code in {[0x00, 0x20], [0x80, 0x20], [0x00, 0x01]} }

  /** The first attribute that reports the client's own address, and the first that reports
      the server's other one. */
  function FirstMapped(attrs: seq<AttrRead>): Option<AttrRead> {
    if attrs == [] then None else if Mapped(attrs[0].0) then Some(attrs[0]) else FirstMapped(attrs[1..])
  }

  function FirstChanged(attrs: seq<AttrRead>): Option<AttrRead> {
    if attrs == [] then None else if attrs[0].0 == [0x00, 0x05] then Some(attrs[0]) else FirstChanged(attrs[1..])
  }

  /** The address such an attribute gives, unmasked unless its code is an XOR one; no attribute
      gives no address, and one without data is an error. */
  function AddressIn(mask: Mask, attr: Option<AttrRead>): Result<Option<Endpoint>> {
    match attr
    case None => Ok(None)
    case Some(a) =>
      if a.1 == None then ValueError
      else
        match DecodeAddr(if a.0 in {[0x00, 0x20], [0x80, 0x20]} then mask else Mask([], []), a.0, a.1.value)
        case Ok(r) => Ok(Some(r.0))
        case _ => ValueError
  }

  lemma {:induction false} FirstsSnoc(attrs: seq<AttrRead>, a: AttrRead)
    ensures FirstMapped(attrs + [a])
         == if FirstMapped(attrs) != None then FirstMapped(attrs) else if Mapped(a.0) then Some(a) else None
    ensures FirstChanged(attrs + [a])
         == if FirstChanged(attrs) != None then FirstChanged(attrs) else if a.0 == [0x00, 0x05] then Some(a) else None
  {
    if attrs == [] {
      assert attrs + [a] == [a] && [a][1..] == [];
    } else {
      assert (attrs + [a])[1..] == attrs[1..] + [a];
      FirstsSnoc(attrs[1..], a);
    }
  }

  /** The attributes of a reply come to the first mapped and the first changed address, and to an
      error exactly when one of these two cannot be decoded. */
  lemma {:induction false} FirstsDecide(mask: Mask, attrs: seq<AttrRead>)
    ensures var r, c := AddressIn(mask, FirstMapped(attrs)), AddressIn(mask, FirstChanged(attrs));
            AttachAll(mask, attrs) == if r.Ok? && c.Ok? then Ok(Seen(r.value, c.value)) else ValueError
  {
    if attrs != [] {
      var init, a := attrs[..|attrs| - 1], attrs[|attrs| - 1];
      FirstsDecide(mask, init);
      FirstsSnoc(init, a);
      assert init + [a] == attrs;
      SomeAddress(mask, FirstMapped(init));
      SomeAddress(mask, FirstChanged(init));
      if AddressIn(mask, FirstMapped(init)).Ok? && AddressIn(mask, FirstChanged(init)).Ok? {
        OneAttached(mask, FirstMapped(init), FirstChanged(init), a);
      }
      hide Attach, AddressIn, Mapped, FirstMapped, FirstChanged;
    }
  }

  lemma SomeAddress(mask: Mask, attr: Option<AttrRead>)
    ensures attr == None ==> AddressIn(mask, attr).Ok?
    ensures AddressIn(mask, attr).Ok? ==> (AddressIn(mask, attr).value != None <==> attr != None)
  {
    hide DecodeAddr;
  }

  // One more attribute, after those that gave m and c.
  lemma OneAttached(mask: Mask, m: Option<AttrRead>, c: Option<AttrRead>, a: AttrRead)
    requires AddressIn(mask, m).Ok? && AddressIn(mask, c).Ok?
    ensures var m' := if m != None then m else if Mapped(a.0) then Some(a) else None;
            var c' := if c != None then c else if a.0 == [0x00, 0x05] then Some(a) else None;
            var r', s' := AddressIn(mask, m'), AddressIn(mask, c');
            Attach(mask, Seen(AddressIn(mask, m).value, AddressIn(mask, c).value), a)
            == if r'.Ok? && s'.Ok? then Ok(Seen(r'.value, s'.value)) else ValueError
  {
    SomeAddress(mask, m);
    SomeAddress(mask, c);
    hide DecodeAddr;
  }

  /** A reply fails when it is cut short, when an attribute is, or when a deciding address cannot be
      decoded; the loop over it hangs when it stops short of the end without any of these;
      otherwise the two addresses, the message and what follows it are reported. */
  lemma ReplyMeans(blank: Message, buf: bytes)
    ensures Process(blank, buf)
         == if !Decode(blank, buf).Ok? then Failed
            else
              var (m, rest) := Decode(blank, buf).value;
              var reading := ReadAll(m.body, 0);
              var mask := Mask(m.cookie, m.txid);
              var r, c := AddressIn(mask, FirstMapped(reading.attrs)), AddressIn(mask, FirstChanged(reading.attrs));
              if !r.Ok? || !c.Ok? || reading.end == AtBadLength then Failed
              else if reading.end == NoProgress then Hangs
              else Reply(Seen(r.value, c.value), m, rest)
  {
    if Decode(blank, buf).Ok? {
      var (m, rest) := Decode(blank, buf).value;
      FirstsDecide(Mask(m.cookie, m.txid), ReadAll(m.body, 0).attrs);
    }
    hide Decode, AttachAll, AddressIn, FirstMapped, FirstChanged, ReadAll;
  }
}
