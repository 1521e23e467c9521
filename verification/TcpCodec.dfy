/** TCP segments on the wire (RFC 9293 section 3.1), with the checksum over either pseudo-header. */
module TcpCodec {
  import opened Bytes
  import opened InternetChecksum
  import opened Ipv4
  import opened Segment

  const TCP_HDR_MIN := 20

  datatype Parsed = Parsed(seg: TcpSegment, dataOffset: nat, checksum: nat)

  datatype Addresses = V4(src4: Ip4, dst4: Ip4) | V6(src6: Ip6, dst6: Ip6)

  type Digit = d: int | 0 <= d < 2

  function BitOf(b: bool): Digit { if b then 1 else 0 }

  function FlagsOctet(f: Flags): (r: int)
    ensures 0 <= r < 256
  {
    BitOf(f.fin) + 0x02 * BitOf(f.syn) + 0x04 * BitOf(f.rst) + 0x08 * BitOf(f.psh)
    + 0x10 * BitOf(f.ack) + 0x20 * BitOf(f.urg) + 0x40 * BitOf(f.ece) + 0x80 * BitOf(f.cwr)
  }

  function OctetFlags(n: byte): (f: Flags) {
    Flags(n % 2 == 1, n / 0x02 % 2 == 1, n / 0x04 % 2 == 1, n / 0x08 % 2 == 1,
          n / 0x10 % 2 == 1, n / 0x20 % 2 == 1, n / 0x40 % 2 == 1, n / 0x80 % 2 == 1)
  }

  /** Every flags octet means one set of flags, and the other way round. */
  lemma FlagsBijection(f: Flags, n: byte)
    ensures OctetFlags(FlagsOctet(f)) == f
    ensures FlagsOctet(OctetFlags(n)) == n
  {
    FlagsOfOctet(f);
    OctetOfFlags(n);
    hide *;
  }

  lemma FlagsOfOctet(f: Flags)
    ensures OctetFlags(FlagsOctet(f)) == f
  {
    Digits(BitOf(f.fin), BitOf(f.syn), BitOf(f.rst), BitOf(f.psh), BitOf(f.ack), BitOf(f.urg), BitOf(f.ece), BitOf(f.cwr));
  }

  lemma OctetOfFlags(n: byte)
    ensures FlagsOctet(OctetFlags(n)) == n
  {
    BinaryExpansion(n);
    FromDigits(n % 2, n / 0x02 % 2, n / 0x04 % 2, n / 0x08 % 2, n / 0x10 % 2, n / 0x20 % 2, n / 0x40 % 2, n / 0x80 % 2);
    hide FlagsOctet;
  }

  lemma FromDigits(b0: Digit, b1: Digit, b2: Digit, b3: Digit, b4: Digit, b5: Digit, b6: Digit, b7: Digit)
    ensures FlagsOctet(Flags(b0 == 1, b1 == 1, b2 == 1, b3 == 1, b4 == 1, b5 == 1, b6 == 1, b7 == 1))
         == b0 + 0x02 * b1 + 0x04 * b2 + 0x08 * b3 + 0x10 * b4 + 0x20 * b5 + 0x40 * b6 + 0x80 * b7
  {
  }

  lemma Digits(b0: Digit, b1: Digit, b2: Digit, b3: Digit, b4: Digit, b5: Digit, b6: Digit, b7: Digit)
    ensures var n := b0 + 0x02 * b1 + 0x04 * b2 + 0x08 * b3 + 0x10 * b4 + 0x20 * b5 + 0x40 * b6 + 0x80 * b7;
            && n % 2 == b0 && n / 0x02 % 2 == b1 && n / 0x04 % 2 == b2 && n / 0x08 % 2 == b3
            && n / 0x10 % 2 == b4 && n / 0x20 % 2 == b5 && n / 0x40 % 2 == b6 && n / 0x80 % 2 == b7
  {
    var m7: int := b7;
    var m6 := b6 + 2 * m7;
    var m5 := b5 + 2 * m6;
    var m4 := b4 + 2 * m5;
    var m3 := b3 + 2 * m4;
    var m2 := b2 + 2 * m3;
    var m1 := b1 + 2 * m2;
    Halvings(b0 + 2 * m1, b0, m1, b1, m2, b2, m3, b3, m4);
    Halvings(m4, b4, m5, b5, m6, b6, m7, b7, 0);
    Quotients(b0 + 2 * m1);
  }

  lemma Halvings(n: int, b0: Digit, m1: int, b1: Digit, m2: int, b2: Digit, m3: int, b3: Digit, m4: int)
    requires n == b0 + 2 * m1 && m1 == b1 + 2 * m2 && m2 == b2 + 2 * m3 && m3 == b3 + 2 * m4
    ensures n / 2 == m1 && m1 / 2 == m2 && m2 / 2 == m3 && m3 / 2 == m4
    ensures n % 2 == b0 && m1 % 2 == b1 && m2 % 2 == b2 && m3 % 2 == b3
  {
    LowDigit(b0, m1);
    LowDigit(b1, m2);
    LowDigit(b2, m3);
    LowDigit(b3, m4);
  }

  lemma LowDigit(b: Digit, m: int)
    ensures (b + 2 * m) % 2 == b && (b + 2 * m) / 2 == m
  {
  }

  lemma BinaryExpansion(n: byte)
    ensures n == n % 2 + 0x02 * (n / 0x02 % 2) + 0x04 * (n / 0x04 % 2) + 0x08 * (n / 0x08 % 2)
                 + 0x10 * (n / 0x10 % 2) + 0x20 * (n / 0x20 % 2) + 0x40 * (n / 0x40 % 2) + 0x80 * (n / 0x80 % 2)
  {
    Quotients(n);
  }

  lemma Quotients(n: byte)
    ensures n / 0x04 == n / 0x02 / 2 && n / 0x08 == n / 0x04 / 2 && n / 0x10 == n / 0x08 / 2
    ensures n / 0x20 == n / 0x10 / 2 && n / 0x40 == n / 0x20 / 2 && n / 0x80 == n / 0x40 / 2 && n / 0x80 < 2
  {
  }

  // The fields as their struct codes bound them.
  predicate FieldsFit(seg: TcpSegment) {
    && seg.srcPort < 0x1_0000 && seg.dstPort < 0x1_0000 && seg.seqNo < 0x1_0000_0000 && seg.ackNo < 0x1_0000_0000
    && seg.window < 0x1_0000 && seg.urgent < 0x1_0000
  }

  function FixedHead(seg: TcpSegment, dataOffset: nat, csum: int): (r: bytes)
    requires FieldsFit(seg) && dataOffset <= 15 && 0 <= csum < 0x1_0000
    ensures |r| == TCP_HDR_MIN
  {
    U16(seg.srcPort) + U16(seg.dstPort) + U32(seg.seqNo) + U32(seg.ackNo)
    + U16(dataOffset * 0x1000 + FlagsOctet(seg.flags)) + U16(seg.window) + U16(csum) + U16(seg.urgent)
  }

  function PseudoHeader(a: Addresses, length: nat): (r: bytes)
    requires length < if a.V4? then 0x1_0000 else 0x1_0000_0000
    ensures |r| % 2 == 0
  {
    match a
    case V4(src, dst) => PseudoHeader4(src, dst, PROTO_TCP, length)
    case V6(src, dst) => PseudoHeader6(src, dst, PROTO_TCP, length)
  }

  predicate LengthFits(a: Addresses, length: nat) { length < if a.V4? then 0x1_0000 else 0x1_0000_0000 }

  function SegmentBytes(seg: TcpSegment, opts: bytes, csum: int): (r: bytes)
    requires FieldsFit(seg) && TCP_HDR_MIN + |opts| <= 60 && 0 <= csum < 0x1_0000
    ensures |r| == TCP_HDR_MIN + |opts| + |seg.payload|
  {
    FixedHead(seg, (TCP_HDR_MIN + |opts|) / 4, csum) + opts + seg.payload
  }

  function PackTcp(seg: TcpSegment, a: Addresses): (r: Result<bytes>) {
    var opts := PadOptions(seg.options);
    if (TCP_HDR_MIN + |opts|) / 4 > 15 then ValueError
    else if !FieldsFit(seg) || !LengthFits(a, TCP_HDR_MIN + |opts| + |seg.payload|) then StructError
    else
      var body := SegmentBytes(seg, opts, 0);
      Ok(SegmentBytes(seg, opts, Checksum(PseudoHeader(a, |body|) + body)))
  }

  function ParseTcp(buf: bytes): (r: Result<Parsed>) {
    if |buf| < TCP_HDR_MIN then ValueError
    else
      var bits := ToU16(buf[12..14]);
      var dataOffset := bits / 0x1000;
      var n := dataOffset * 4;
      if dataOffset < 5 || |buf| < n then ValueError
      else
        Ok(Parsed(TcpSegment(ToU16(buf[..2]), ToU16(buf[2..4]), ToU32(buf[4..8]), ToU32(buf[8..12]),
                             OctetFlags(bits % 256), ToU16(buf[14..16]), buf[TCP_HDR_MIN..n], buf[n..], ToU16(buf[18..20])),
                  dataOffset, ToU16(buf[16..18])))
  }

  predicate ValidTcp(buf: bytes, a: Addresses)
    requires LengthFits(a, |buf|)
  {
    |buf| >= TCP_HDR_MIN && Checksum(PseudoHeader(a, |buf|) + buf) == 0
  }

  // Where each field is.
  lemma HeadFields(seg: TcpSegment, dataOffset: nat, csum: int)
    requires FieldsFit(seg) && dataOffset <= 15 && 0 <= csum < 0x1_0000
    ensures var h := FixedHead(seg, dataOffset, csum);
            && h[..2] == U16(seg.srcPort) && h[2..4] == U16(seg.dstPort)
            && h[4..8] == U32(seg.seqNo) && h[8..12] == U32(seg.ackNo)
            && h[12..14] == U16(dataOffset * 0x1000 + FlagsOctet(seg.flags)) && h[14..16] == U16(seg.window)
            && h[16..18] == U16(csum) && h[18..20] == U16(seg.urgent)
  {
    hide U16, U32, FlagsOctet;
  }

  lemma HeadChecksum(seg: TcpSegment, opts: bytes, csum: int)
    requires FieldsFit(seg) && TCP_HDR_MIN + |opts| <= 60 && 0 <= csum < 0x1_0000
    ensures SegmentBytes(seg, opts, csum) == Patch(SegmentBytes(seg, opts, 0), 16, csum)
  {
    var dataOffset := (TCP_HDR_MIN + |opts|) / 4;
    var front := U16(seg.srcPort) + U16(seg.dstPort) + U32(seg.seqNo) + U32(seg.ackNo)
                 + U16(dataOffset * 0x1000 + FlagsOctet(seg.flags)) + U16(seg.window);
    var back := U16(seg.urgent) + opts + seg.payload;
    HeadParts(seg, opts, 0, front, back);
    HeadParts(seg, opts, csum, front, back);
    assert (front + U16(0) + back)[..16] == front && (front + U16(0) + back)[18..] == back;
    hide SegmentBytes, U16, U32, FlagsOctet;
  }

  lemma HeadParts(seg: TcpSegment, opts: bytes, csum: int, front: bytes, back: bytes)
    requires FieldsFit(seg) && TCP_HDR_MIN + |opts| <= 60 && 0 <= csum < 0x1_0000
    requires front == U16(seg.srcPort) + U16(seg.dstPort) + U32(seg.seqNo) + U32(seg.ackNo)
                      + U16((TCP_HDR_MIN + |opts|) / 4 * 0x1000 + FlagsOctet(seg.flags)) + U16(seg.window)
    requires back == U16(seg.urgent) + opts + seg.payload
    ensures SegmentBytes(seg, opts, csum) == front + U16(csum) + back
  {
    hide U16, U32, FlagsOctet;
  }

  /** Every segment sent verifies under the pseudo-header it was packed with, odd payloads included. */
  lemma PackedTcpVerifies(seg: TcpSegment, a: Addresses)
    requires PackTcp(seg, a).Ok?
    ensures ValidTcp(PackTcp(seg, a).value, a)
  {
    var opts := PadOptions(seg.options);
    PackedIs(seg, a);
    var body := SegmentBytes(seg, opts, 0);
    hide *;
    ZeroWord(seg, opts);
    HeadChecksum(seg, opts, Checksum(PseudoHeader(a, |body|) + body));
    VerifiesBehind(PseudoHeader(a, |body|), body, 16);
    ValidIs(PackTcp(seg, a).value, a);
  }

  lemma PackedIs(seg: TcpSegment, a: Addresses)
    requires PackTcp(seg, a).Ok?
    ensures var opts := PadOptions(seg.options);
            && FieldsFit(seg) && TCP_HDR_MIN + |opts| <= 60 && LengthFits(a, TCP_HDR_MIN + |opts| + |seg.payload|)
            && var body := SegmentBytes(seg, opts, 0);
            PackTcp(seg, a).value == SegmentBytes(seg, opts, Checksum(PseudoHeader(a, |body|) + body))
  {
    hide SegmentBytes, Checksum, PseudoHeader, FieldsFit, LengthFits;
  }

  lemma ValidIs(buf: bytes, a: Addresses)
    requires LengthFits(a, |buf|) && |buf| >= TCP_HDR_MIN && Checksum(PseudoHeader(a, |buf|) + buf) == 0
    ensures ValidTcp(buf, a)
  {
  }

  lemma VerifiesBehind(ph: bytes, body: bytes, k: nat)
    requires |ph| % 2 == 0 && k % 2 == 0 && k + 2 <= |body| && body[k] == 0 && body[k + 1] == 0
    ensures Checksum(ph + Patch(body, k, Checksum(ph + body))) == 0
  {
    hide *;
    var whole, at := ph + body, |ph| + k;
    EvenSum(|ph|, k);
    assert whole[at] == 0 && whole[at + 1] == 0;
    PatchBehind(ph, body, k, Checksum(whole));
    PatchedVerifies(whole, at);
  }

  lemma EvenSum(a: nat, b: nat)
    requires a % 2 == 0 && b % 2 == 0
    ensures (a + b) % 2 == 0
  {
  }

  lemma DetectedBehind(ph: bytes, body: bytes, k: nat, w: int)
    requires |ph| % 2 == 0 && k % 2 == 0 && k + 2 <= |body| && 0 <= w < 0x1_0000 && Checksum(ph + body) == 0
    ensures Checksum(ph + Patch(body, k, w)) != 0
       <==> w % 65535 != ToU16(body[k..k + 2]) % 65535 || WordSum(Padded(ph + Patch(body, k, w))) == 0
  {
    hide *;
    var whole, at := ph + body, |ph| + k;
    EvenSum(|ph|, k);
    PatchBehind(ph, body, k, w);
    ChangeDetected(whole, at, w);
  }

  lemma ZeroWord(seg: TcpSegment, opts: bytes)
    requires FieldsFit(seg) && TCP_HDR_MIN + |opts| <= 60
    ensures var body := SegmentBytes(seg, opts, 0); body[16] == 0 && body[17] == 0
  {
    HeadFields(seg, (TCP_HDR_MIN + |opts|) / 4, 0);
    var h := FixedHead(seg, (TCP_HDR_MIN + |opts|) / 4, 0);
    assert h[16] == h[16..18][0] && h[17] == h[16..18][1];
    hide FixedHead;
  }

  lemma PatchBehind(ph: bytes, body: bytes, k: nat, w: int)
    requires k + 2 <= |body| && 0 <= w < 0x1_0000
    ensures Patch(ph + body, |ph| + k, w) == ph + Patch(body, k, w)
    ensures (ph + body)[|ph| + k..|ph| + k + 2] == body[k..k + 2]
  {
    assert (ph + body)[..|ph| + k] == ph + body[..k];
    assert (ph + body)[|ph| + k + 2..] == body[k + 2..];
  }

  /** Parsing what was packed gives the same segment, its options padded with NOPs. */
  lemma TcpRoundTrip(seg: TcpSegment, a: Addresses)
    requires PackTcp(seg, a).Ok?
    ensures var r := ParseTcp(PackTcp(seg, a).value);
            r.Ok? && r.value.seg == seg.(options := PadOptions(seg.options))
            && r.value.dataOffset * 4 == TCP_HDR_MIN + |PadOptions(seg.options)|
  {
    var opts := PadOptions(seg.options);
    PackedIs(seg, a);
    Offset(|opts|);
    hide FixedHead, ParseTcp, PackTcp, PadOptions, FieldsFit, LengthFits, Checksum, PseudoHeader;
    hide U16, U32, ToU16, ToU32, OctetFlags, FlagsOctet;
    var body := SegmentBytes(seg, opts, 0);
    var csum := Checksum(PseudoHeader(a, |body|) + body);
    var off := (TCP_HDR_MIN + |opts|) / 4;
    HeadFields(seg, off, csum);
    FlagsBijection(seg.flags, 0);
    ParseAfterHead(FixedHead(seg, off, csum), opts, seg.payload, off, FlagsOctet(seg.flags));
  }

  lemma Offset(n: nat)
    requires n % 4 == 0 && TCP_HDR_MIN + n <= 60
    ensures (TCP_HDR_MIN + n) / 4 <= 15 && (TCP_HDR_MIN + n) / 4 * 4 == TCP_HDR_MIN + n
  {
  }

  lemma ParseAfterHead(h: bytes, opts: bytes, payload: bytes, off: nat, flags: byte)
    requires |h| == 20 && off * 4 == 20 + |opts| && off <= 15
    requires ToU16(h[12..14]) == off * 0x1000 + flags
    ensures ParseTcp(h + opts + payload)
         == Ok(Parsed(TcpSegment(ToU16(h[..2]), ToU16(h[2..4]), ToU32(h[4..8]), ToU32(h[8..12]), OctetFlags(flags),
                                 ToU16(h[14..16]), opts, payload, ToU16(h[18..20])), off, ToU16(h[16..18])))
  {
    var buf := h + opts + payload;
    assert buf == h + (opts + payload);
    SliceStays(h, opts + payload, 0, 2);
    SliceStays(h, opts + payload, 2, 4);
    SliceStays(h, opts + payload, 4, 8);
    SliceStays(h, opts + payload, 8, 12);
    SliceStays(h, opts + payload, 12, 14);
    SliceStays(h, opts + payload, 14, 16);
    SliceStays(h, opts + payload, 16, 18);
    SliceStays(h, opts + payload, 18, 20);
    OffsetField(off, flags);
    assert buf[20..20 + |opts|] == opts && buf[20 + |opts|..] == payload;
    hide ToU16, ToU32, OctetFlags;
  }

  lemma OffsetField(off: nat, flags: byte)
    ensures (off * 0x1000 + flags) / 0x1000 == off && (off * 0x1000 + flags) % 256 == flags
  {
    LowOctet(off * 16, flags);
  }

  lemma LowOctet(q: nat, r: byte)
    ensures (256 * q + r) % 256 == r && (256 * q + r) / 256 == q
  {
  }

  /** One word of the segment changed in transit is noticed unless the two values agree
      modulo 65535: RFC 1071's guarantee, through the pseudo-header. */
  lemma TcpChangeDetected(buf: bytes, a: Addresses, k: nat, w: int)
    requires LengthFits(a, |buf|) && ValidTcp(buf, a) && k % 2 == 0 && k + 2 <= |buf| && 0 <= w < 0x1_0000
    ensures ValidTcp(Patch(buf, k, w), a) <==> w % 65535 == ToU16(buf[k..k + 2]) % 65535
  {
    var ph := PseudoHeader(a, |buf|);
    DetectedBehind(ph, buf, k, w);
    PseudoHeaderPositive(a, |buf|, Patch(buf, k, w));
    hide PseudoHeader, Checksum, Patch, ToU16;
  }

  lemma PseudoHeaderPositive(a: Addresses, length: nat, buf: bytes)
    requires LengthFits(a, length)
    ensures WordSum(Padded(PseudoHeader(a, length) + buf)) > 0
  {
    var ph := PseudoHeader(a, length);
    assert Padded(ph + buf) == ph + Padded(buf);
    WordSumAppend(ph, Padded(buf));
    match a
    case V4(src, dst) =>
      SplitSum(src + dst, [0, PROTO_TCP], U16(length));
      assert ph == src + dst + [0, PROTO_TCP] + U16(length);
    case V6(src, dst) =>
      assert ph == src + dst + U32(length) + [0, 0] + [0, PROTO_TCP] + [];
      SplitSum(src + dst + U32(length) + [0, 0], [0, PROTO_TCP], []);
  }
}
