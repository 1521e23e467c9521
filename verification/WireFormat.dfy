/** Where every octet goes: the TCP, IPv4 and link-layer headers, octet by octet.

    Packing and parsing agree with each other elsewhere; here both are held against
    the formats themselves (RFC 9293 section 3.1, RFC 791 section 3.1, RFC 1071). */
module WireFormat {
  import opened Bytes
  import opened InternetChecksum
  import opened Ipv4
  import opened Segment
  import opened TcpCodec
  import opened Link
  import opened Connection
  import TcpMachine

  function Be16(b: bytes, i: nat): nat
    requires i + 2 <= |b|
  {
    (b[i] as int) * 256 + b[i + 1]
  }

  function Be32(b: bytes, i: nat): nat
    requires i + 4 <= |b|
  {
    (((b[i] as int) * 256 + b[i + 1]) * 256 + b[i + 2]) * 256 + b[i + 3]
  }

  lemma U16Octets(n: int)
    requires 0 <= n < 0x1_0000
    ensures Be16(U16(n), 0) == n
  {
  }

  lemma U32Octets(n: int)
    requires 0 <= n < 0x1_0000_0000
    ensures Be32(U32(n), 0) == n
  {
    U16Octets(n / 0x1_0000);
    U16Octets(n % 0x1_0000);
    assert U32(n)[..2] == U16(n / 0x1_0000) && U32(n)[2..] == U16(n % 0x1_0000);
  }

  lemma ToU16Octets(b: bytes, i: nat)
    requires i + 2 <= |b|
    ensures ToU16(b[i..i + 2]) == Be16(b, i)
  {
  }

  lemma ToU32Octets(b: bytes, i: nat)
    requires i + 4 <= |b|
    ensures ToU32(b[i..i + 4]) == Be32(b, i)
  {
    var w := b[i..i + 4];
    assert w[..2] == b[i..i + 2] && w[2..] == b[i + 2..i + 4];
  }

  // --- The checksum ------------------------------------------------------------------------

  /** The sum of the words of a buffer: an octet pair counts high octet first, and
      sums add up over parts of even length. */
  lemma WordSumMeans(hi: byte, lo: byte, a: bytes, b: bytes)
    requires |a| % 2 == 0 && |b| % 2 == 0
    ensures WordSum([]) == 0 && WordSum([hi, lo]) == 256 * (hi as int) + lo && WordSum(a + b) == WordSum(a) + WordSum(b)
  {
    assert [hi, lo][..0] == [] && [hi, lo][0..] == [hi, lo];
    WordSumAppend(a, b);
  }

  /** The words of the segment, its two addresses, the protocol number 6 and the length. */
  function CoveredSum(b: bytes, a: Addresses): nat
    requires LengthFits(a, |b|)
  {
    match a
    case V4(src, dst) => WordSum(src) + WordSum(dst) + 6 + |b| + WordSum(Padded(b))
    case V6(src, dst) => WordSum(src) + WordSum(dst) + 6 + |b| / 0x1_0000 + |b| % 0x1_0000 + WordSum(Padded(b))
  }

  lemma PseudoHeaderSum(b: bytes, a: Addresses)
    requires LengthFits(a, |b|)
    ensures WordSum(Padded(PseudoHeader(a, |b|) + b)) == CoveredSum(b, a)
  {
    var ph := PseudoHeader(a, |b|);
    assert Padded(ph + b) == ph + Padded(b);
    WordSumAppend(ph, Padded(b));
    match a
    case V4(src, dst) => Sum4(src, dst, |b|);
    case V6(src, dst) => Sum6(src, dst, |b|);
    hide PseudoHeader4, PseudoHeader6, WordSum, Padded;
  }

  lemma Sum4(src: Ip4, dst: Ip4, n: nat)
    requires n < 0x1_0000
    ensures WordSum(PseudoHeader4(src, dst, 6, n)) == WordSum(src) + WordSum(dst) + 6 + n
  {
    WordSumMeans(0, 6, src, dst);
    WordSumAppend(src + dst, [0, 6]);
    OneWord(n);
    WordSumAppend(src + dst + [0, 6], U16(n));
    hide WordSum, U16;
  }

  lemma OneWord(n: int)
    requires 0 <= n < 0x1_0000
    ensures WordSum(U16(n)) == n
  {
    assert U16(n)[..0] == [] && U16(n)[0..] == U16(n);
  }

  lemma Sum6(src: Ip6, dst: Ip6, n: nat)
    requires n < 0x1_0000_0000
    ensures WordSum(PseudoHeader6(src, dst, 6, n)) == WordSum(src) + WordSum(dst) + 6 + n / 0x1_0000 + n % 0x1_0000
  {
    WordSumAppend(src, dst);
    OneWord(n / 0x1_0000);
    OneWord(n % 0x1_0000);
    WordSumAppend(U16(n / 0x1_0000), U16(n % 0x1_0000));
    WordSumAppend(src + dst, U32(n));
    WordSumMeans(0, 6, [], []);
    WordSumMeans(0, 0, [0, 0], [0, 6]);
    assert [0, 0] + [0, 6] == [0, 0, 0, 6];
    WordSumAppend(src + dst + U32(n), [0, 0, 0, 6]);
    hide WordSum, U16;
  }

  /** A segment verifies between two addresses exactly when what its checksum covers sums
      to a positive multiple of 65535; every packed segment does. */
  lemma ChecksumCovers(b: bytes, a: Addresses)
    requires LengthFits(a, |b|)
    ensures ValidTcp(b, a) <==> |b| >= 20 && CoveredSum(b, a) > 0 && CoveredSum(b, a) % 65535 == 0
  {
    PseudoHeaderSum(b, a);
    VerifiesIff(PseudoHeader(a, |b|) + b);
    hide PseudoHeader, Checksum, WordSum, Padded, CoveredSum;
  }

  lemma PackedSum(seg: TcpSegment, a: Addresses)
    requires PackTcp(seg, a).Ok?
    ensures var b := PackTcp(seg, a).value;
            LengthFits(a, |b|) && CoveredSum(b, a) > 0 && CoveredSum(b, a) % 65535 == 0
  {
    PackedTcpVerifies(seg, a);
    PackedIs(seg, a);
    ChecksumCovers(PackTcp(seg, a).value, a);
    hide PackTcp, CoveredSum, Checksum, PseudoHeader, PadOptions, FieldsFit;
  }

  // --- TCP ---------------------------------------------------------------------------------

  /** Flags from the high bit down: CWR, ECE, URG, ACK, PSH, RST, SYN, FIN. */
  function FlagBits(f: Flags): nat {
    (if f.cwr then 128 else 0) + (if f.ece then 64 else 0) + (if f.urg then 32 else 0) + (if f.ack then 16 else 0)
    + (if f.psh then 8 else 0) + (if f.rst then 4 else 0) + (if f.syn then 2 else 0) + (if f.fin then 1 else 0)
  }

  /** b is a segment with these fields and a header of off words; the four bits after
      the data offset are not looked at. */
  predicate TcpOctets(b: bytes, seg: TcpSegment, off: nat) {
    && 5 <= off <= 15 && |b| == 4 * off + |seg.payload| && 20 + |seg.options| == 4 * off
    && Be16(b, 0) == seg.srcPort && Be16(b, 2) == seg.dstPort && Be32(b, 4) == seg.seqNo && Be32(b, 8) == seg.ackNo
    && b[12] as int / 16 == off && b[13] as int == FlagBits(seg.flags)
    && Be16(b, 14) == seg.window && Be16(b, 18) == seg.urgent
    && b[20..4 * off] == seg.options && b[4 * off..] == seg.payload
  }

  lemma FlagBitsIs(f: Flags)
    ensures FlagsOctet(f) == FlagBits(f)
  {
  }

  lemma Slice2(h: bytes, i: nat, n: int)
    requires i + 2 <= |h| && 0 <= n < 0x1_0000 && h[i..i + 2] == U16(n)
    ensures Be16(h, i) == n
  {
    ToU16Octets(h, i);
  }

  lemma Slice4(h: bytes, i: nat, n: int)
    requires i + 4 <= |h| && 0 <= n < 0x1_0000_0000 && h[i..i + 4] == U32(n)
    ensures Be32(h, i) == n
  {
    ToU32Octets(h, i);
    hide U32;
  }

  lemma HighOctet(off: nat, flags: nat, w: nat)
    requires off <= 15 && flags < 256 && w == off * 0x1000 + flags
    ensures w / 256 == 16 * off && w % 256 == flags
  {
  }

  lemma FixedHeadOctets(seg: TcpSegment, off: nat, csum: int)
    requires FieldsFit(seg) && off <= 15 && 0 <= csum < 0x1_0000
    ensures var h := FixedHead(seg, off, csum);
            && Be16(h, 0) == seg.srcPort && Be16(h, 2) == seg.dstPort && Be32(h, 4) == seg.seqNo && Be32(h, 8) == seg.ackNo
            && h[12] as int == 16 * off && h[13] as int == FlagBits(seg.flags)
            && Be16(h, 14) == seg.window && Be16(h, 16) == csum && Be16(h, 18) == seg.urgent
  {
    var h := FixedHead(seg, off, csum);
    HeadFields(seg, off, csum);
    FlagBitsIs(seg.flags);
    hide FixedHead, FlagsOctet, FlagBits, Be32, U32;
    Slice2(h, 0, seg.srcPort);
    Slice2(h, 2, seg.dstPort);
    Slice4(h, 4, seg.seqNo);
    Slice4(h, 8, seg.ackNo);
    Slice2(h, 14, seg.window);
    Slice2(h, 16, csum);
    Slice2(h, 18, seg.urgent);
    HighOctet(off, FlagsOctet(seg.flags), off * 0x1000 + FlagsOctet(seg.flags));
    assert h[12] == h[12..14][0] && h[13] == h[12..14][1];
  }

  /** Every field of a packed segment is where the format has it, and nothing lies between. */
  lemma TcpLayout(seg: TcpSegment, a: Addresses)
    requires PackTcp(seg, a).Ok?
    ensures var opts := PadOptions(seg.options);
            TcpOctets(PackTcp(seg, a).value, seg.(options := opts), (20 + |opts|) / 4)
            && PackTcp(seg, a).value[12] % 16 == 0
  {
    var opts := PadOptions(seg.options);
    PackedIs(seg, a);
    Offset(|opts|);
    var csum := Checksum(PseudoHeader(a, |SegmentBytes(seg, opts, 0)|) + SegmentBytes(seg, opts, 0));
    var off := (20 + |opts|) / 4;
    FixedHeadOctets(seg, off, csum);
    hide PackTcp, PadOptions, FixedHead, FieldsFit, Checksum, PseudoHeader, FlagBits;
    BehindHead(FixedHead(seg, off, csum), seg.(options := opts), off);
  }

  lemma BehindHead(h: bytes, seg: TcpSegment, off: nat)
    requires |h| == 20 && 5 <= off <= 15 && 20 + |seg.options| == 4 * off
    requires Be16(h, 0) == seg.srcPort && Be16(h, 2) == seg.dstPort && Be32(h, 4) == seg.seqNo && Be32(h, 8) == seg.ackNo
    requires h[12] as int == 16 * off && h[13] as int == FlagBits(seg.flags)
    requires Be16(h, 14) == seg.window && Be16(h, 18) == seg.urgent
    ensures TcpOctets(h + seg.options + seg.payload, seg, off) && (h + seg.options + seg.payload)[12] == 16 * off
  {
    hide FlagBits;
    var b := h + seg.options + seg.payload;
    assert b[20..4 * off] == seg.options && b[4 * off..] == seg.payload;
  }

  /** What the parser reads is what the octets say, and it refuses exactly what has no whole header. */
  lemma TcpReads(b: bytes)
    ensures ParseTcp(b).Ok? <==> |b| >= 20 && b[12] >= 80 && |b| >= b[12] as int / 16 * 4
    ensures ParseTcp(b).Ok? ==>
              var p := ParseTcp(b).value; TcpOctets(b, p.seg, p.dataOffset) && p.checksum == Be16(b, 16)
  {
    if |b| >= 20 {
      TcpHeadReads(b);
      OffsetReads(b);
      FlagsBijection(NO_FLAGS, b[13]);
      FlagBitsIs(OctetFlags(b[13]));
    }
    hide FlagsOctet, OctetFlags, FlagBits, ToU16, Be16, Be32;
  }

  lemma OffsetReads(b: bytes)
    requires |b| >= 20
    ensures ToU16(b[12..14]) / 0x1000 == b[12] as int / 16 && ToU16(b[12..14]) % 256 == b[13]
  {
    var hi, lo := b[12] as int, b[13] as int;
    assert hi * 256 + lo == hi / 16 * 0x1000 + (hi % 16 * 256 + lo);
  }

  lemma TcpHeadReads(b: bytes)
    requires |b| >= 20
    ensures var off := ToU16(b[12..14]) / 0x1000;
            if off < 5 || |b| < 4 * off then !ParseTcp(b).Ok?
            else
              ParseTcp(b) == Ok(Parsed(TcpSegment(Be16(b, 0), Be16(b, 2), Be32(b, 4), Be32(b, 8),
                                                  OctetFlags(ToU16(b[12..14]) % 256), Be16(b, 14), b[20..4 * off], b[4 * off..],
                                                  Be16(b, 18)), off, Be16(b, 16)))
  {
    ToU16Octets(b, 0);
    ToU16Octets(b, 2);
    ToU32Octets(b, 4);
    ToU32Octets(b, 8);
    ToU16Octets(b, 14);
    ToU16Octets(b, 16);
    ToU16Octets(b, 18);
    hide ToU16, ToU32, Be16, Be32, OctetFlags;
  }

  // --- IPv4 ----------------------------------------------------------------------------------

  /** Every field of a packed packet is where the format has it, the payload follows the twenty
      octets of header, and the header sums to a positive multiple of 65535. */
  lemma Ipv4Layout(src: bytes, dst: bytes, proto: byte, payload: bytes, f: Ipv4Fields)
    ensures PackIpv4(src, dst, proto, payload, f).Ok?
       <==> |src| == 4 && |dst| == 4 && 20 + |payload| < 65536 && f.tos < 256 && f.ttl < 256
    ensures PackIpv4(src, dst, proto, payload, f).Ok? ==>
              var b := PackIpv4(src, dst, proto, payload, f).value;
              && |b| == 20 + |payload| && b[20..] == payload
              && b[0] as int == 4 * 16 + 5 && b[1] as int == f.tos && Be16(b, 2) == |b| && Be16(b, 4) == f.ident % 65536
              && Be16(b, 6) == f.flags / 8192 % 8 * 8192 + f.fragOffset % 8192
              && b[8] as int == f.ttl && b[9] == proto && b[12..16] == src && b[16..20] == dst
              && WordSum(b[..20]) > 0 && WordSum(b[..20]) % 65535 == 0
  {
    if PackIpv4(src, dst, proto, payload, f).Ok? {
      var n := 20 + |payload|;
      var csum := Checksum(HeaderBytes(src, dst, proto, n, f, 0));
      var h := HeaderBytes(src, dst, proto, n, f, csum);
      HeaderFields(src, dst, proto, n, f, csum);
      hide HeaderBytes, Checksum, U16;
      Slice2(h, 2, n);
      Slice2(h, 4, f.ident % 65536);
      Slice2(h, 6, f.flags / 8192 % 8 * 8192 + f.fragOffset % 8192);
      HeaderSums(src, dst, proto, payload, f);
      AfterHeader(h, payload);
      hide Be16, WordSum;
    }
  }

  lemma AfterHeader(h: bytes, payload: bytes)
    requires |h| == 20
    ensures var b := h + payload;
            && b[20..] == payload && b[..20] == h && b[12..16] == h[12..16] && b[16..20] == h[16..20]
            && Be16(b, 2) == Be16(h, 2) && Be16(b, 4) == Be16(h, 4) && Be16(b, 6) == Be16(h, 6)
            && b[0] == h[0] && b[1] == h[1] && b[8] == h[8] && b[9] == h[9]
  {
  }

  lemma HeaderSums(src: Ip4, dst: Ip4, proto: byte, payload: bytes, f: Ipv4Fields)
    requires PackIpv4(src, dst, proto, payload, f).Ok?
    ensures var b := PackIpv4(src, dst, proto, payload, f).value;
            |b| >= 20 && WordSum(b[..20]) > 0 && WordSum(b[..20]) % 65535 == 0
  {
    PackedIpv4Verifies(src, dst, proto, payload, f, []);
    var b := PackIpv4(src, dst, proto, payload, f).value;
    HeaderFields(src, dst, proto, 20 + |payload|, f, Checksum(HeaderBytes(src, dst, proto, 20 + |payload|, f, 0)));
    assert b[0] == 0x45;
    assert b + [] == b;
    hide PackIpv4, HeaderBytes, Checksum, WordSum, U16;
    HeaderVerifies(b);
    assert Padded(b[..20]) == b[..20];
  }

  lemma HeaderVerifies(b: bytes)
    requires ValidIpv4(b) && |b| >= 20 && b[0] == 0x45
    ensures WordSum(Padded(b[..20])) > 0 && WordSum(Padded(b[..20])) % 65535 == 0
  {
    VerifiesIff(b[..20]);
    hide WordSum, Padded, Checksum;
  }

  /** What the parser reads, for headers of any length, and what it refuses. */
  lemma Ipv4Reads(b: bytes)
    ensures ParseIpv4(b).Ok?
       <==> |b| >= 20 && b[0] as int / 16 == 4 && b[0] as int % 16 >= 5
            && |b| >= b[0] as int % 16 * 4 && Be16(b, 2) >= b[0] as int % 16 * 4
    ensures ParseIpv4(b).Ok? ==>
              var (h, payload) := ParseIpv4(b).value;
              var n := b[0] as int % 16 * 4;
              && h.ihl == b[0] as int % 16 && h.tos == b[1] as int && h.totalLen == Be16(b, 2) && h.ident == Be16(b, 4)
              && h.flags == Be16(b, 6) / 8192 * 8192 && h.fragOffset == Be16(b, 6) % 8192
              && h.ttl == b[8] as int && h.proto == b[9] as int && h.checksum == Be16(b, 10)
              && h.src == b[12..16] && h.dst == b[16..20] && h.rawHeader == b[..n]
              && payload == if h.totalLen <= |b| then b[n..h.totalLen] else b[n..]
  {
    if |b| >= 20 {
      ToU16Octets(b, 2);
      ToU16Octets(b, 4);
      ToU16Octets(b, 6);
      ToU16Octets(b, 10);
    }
    hide ToU16, Be16;
  }

  /** A header verifies when it has twenty octets and its words sum to a positive multiple of 65535. */
  lemma Ipv4Valid(b: bytes)
    ensures ValidIpv4(b)
       <==> |b| >= 20 && var n := b[0] as int % 16 * 4;
            var h := if n <= |b| then b[..n] else b; WordSum(Padded(h)) > 0 && WordSum(Padded(h)) % 65535 == 0
  {
    if |b| >= 20 {
      var n := b[0] as int % 16 * 4;
      VerifiesIff(if n <= |b| then b[..n] else b);
    }
    hide WordSum, Padded, Checksum;
  }

  // --- The link layer ---------------------------------------------------------------------------

  /** Ethernet: two addresses, the type, the payload, and zeros up to sixty octets; a BSD loopback:
      the address family in four octets, little-endian on DLT_NULL. */
  lemma LinkLayout(dlt: nat, etherType: nat, dstMac: bytes, srcMac: bytes, payload: bytes)
    ensures WrapLinkLayer(dlt, etherType, dstMac, srcMac, payload)
         == if dlt == 1 then
              (if |dstMac| != 6 || |srcMac| != 6 then ValueError
               else if etherType >= 65536 then StructError
               else
                 Ok(dstMac + srcMac + [etherType / 256, etherType % 256] + payload
                    + Zeros(if |payload| < 46 then 46 - |payload| else 0)))
            else if dlt == 0 && etherType == 0x0800 then Ok([2, 0, 0, 0] + payload)
            else if dlt == 0 && etherType == 0x86DD then Ok([30, 0, 0, 0] + payload)
            else if dlt == 108 && etherType == 0x0800 then Ok([0, 0, 0, 2] + payload)
            else if dlt == 108 && etherType == 0x86DD then Ok([0, 0, 0, 24] + payload)
            else ValueError
  {
    assert U32(2) == [0, 0, 0, 2] && U32(24) == [0, 0, 0, 24] && U32(30) == [0, 0, 0, 30];
    if dlt == 1 && |dstMac| == 6 && |srcMac| == 6 && etherType < 65536 {
      var frame := dstMac + srcMac + U16(etherType) + payload;
      assert frame + Zeros(0) == frame;
    }
    hide U32;
  }

  /** The frame begins with the family f, in either byte order on DLT_NULL. */
  predicate IsFamily(dlt: nat, frame: bytes, f: byte)
    requires |frame| >= 4
  {
    frame[..4] == [0, 0, 0, f] || (dlt == 0 && frame[..4] == [f, 0, 0, 0])
  }

  /** What the stripper takes for IPv4 and IPv6: the type field, or an address family; the family of IPv6 is 24, 28 or 30, as the BSDs differ. */
  lemma LinkReads(dlt: nat, frame: bytes)
    ensures StripLinkLayer(dlt, frame)
         == if dlt == 1 then (if |frame| < 14 then ValueError else Ok((Be16(frame, 12), frame[14..])))
            else if !(dlt in {0, 108}) || |frame| < 4 then ValueError
            else if IsFamily(dlt, frame, 2) then Ok((0x0800, frame[4..]))
            else if IsFamily(dlt, frame, 24) || IsFamily(dlt, frame, 28) || IsFamily(dlt, frame, 30) then Ok((0x86DD, frame[4..]))
            else ValueError
  {
    if dlt == 1 && |frame| >= 14 { ToU16Octets(frame, 12); }
    if dlt in {0, 108} && |frame| >= 4 { PrefixNumbers(frame[..4]); }
    hide ToU16, ToU32, Be32, Be16;
  }

  lemma PrefixNumbers(w: bytes)
    requires |w| == 4
    ensures forall f: byte :: (ToU32(w) == f as int <==> w == [0, 0, 0, f]) && (ToU32Le(w) == f as int <==> w == [f, 0, 0, 0])
  {
    var v := [w[3], w[2], w[1], w[0]];
    assert w[0..4] == w && v[0..4] == v;
    ToU32Octets(w, 0);
    ToU32Octets(v, 0);
    SmallWord(w);
    SmallWord(v);
    hide ToU32, Be32;
  }

  lemma SmallWord(w: bytes)
    requires |w| == 4
    ensures forall f: byte :: Be32(w, 0) == f as int <==> w == [0, 0, 0, f]
  {
  }

  // --- Frames --------------------------------------------------------------------------------------

  /** A frame on Ethernet: type 0x0800, an IPv4 header with TTL 64 and only the
      don't-fragment bit, between the two hosts, then the segment, then zeros. */
  ghost predicate FrameOctets(f: bytes, dstMac: bytes, srcMac: bytes, localIp: nat, remoteIp: nat, tcp: bytes) {
    && |f| >= 34 + |tcp| && f[..6] == dstMac && f[6..12] == srcMac && f[12] == 8 && f[13] == 0 && f[14] == 0x45 && f[15] == 0
    && Be16(f, 16) == 20 + |tcp| && Be16(f, 18) == 0 && Be16(f, 20) == 0x4000 && f[22] == 64 && f[23] == 6
    && Be32(f, 26) == localIp && Be32(f, 30) == remoteIp && f[34..34 + |tcp|] == tcp
    && forall i :: 34 + |tcp| <= i < |f| ==> f[i] == 0
  }

  lemma FrameLayout(dstMac: bytes, srcMac: bytes, localIp: nat, remoteIp: nat, seg: TcpSegment)
    requires BuildFrame(1, dstMac, srcMac, localIp, remoteIp, seg).Ok?
    ensures localIp < 0x1_0000_0000 && remoteIp < 0x1_0000_0000 && PackTcp(seg, V4(U32(localIp), U32(remoteIp))).Ok?
    ensures FrameOctets(BuildFrame(1, dstMac, srcMac, localIp, remoteIp, seg).value, dstMac, srcMac, localIp, remoteIp,
                        PackTcp(seg, V4(U32(localIp), U32(remoteIp))).value)
  {
    hide *;
    BuiltIs(dstMac, srcMac, localIp, remoteIp, seg);
    PacketFramed(dstMac, srcMac, localIp, remoteIp, PackTcp(seg, V4(U32(localIp), U32(remoteIp))).value);
  }

  lemma PacketFramed(dstMac: bytes, srcMac: bytes, localIp: nat, remoteIp: nat, tcp: bytes)
    requires |dstMac| == 6 && |srcMac| == 6 && localIp < 0x1_0000_0000 && remoteIp < 0x1_0000_0000
    requires PackIpv4(U32(localIp), U32(remoteIp), 6, tcp, DEFAULT_FIELDS).Ok?
    ensures var packet := PackIpv4(U32(localIp), U32(remoteIp), 6, tcp, DEFAULT_FIELDS).value;
            FrameOctets(dstMac + srcMac + [8, 0] + packet + Zeros(if |packet| < 46 then 46 - |packet| else 0),
                        dstMac, srcMac, localIp, remoteIp, tcp)
  {
    U32Octets(localIp);
    U32Octets(remoteIp);
    PacketLayout(U32(localIp), U32(remoteIp), tcp);
    hide PackIpv4, U32, Be32, Be16;
    var packet := PackIpv4(U32(localIp), U32(remoteIp), 6, tcp, DEFAULT_FIELDS).value;
    BehindEthernet(dstMac, srcMac, packet, Zeros(if |packet| < 46 then 46 - |packet| else 0), U32(localIp), U32(remoteIp));
  }

  lemma PacketLayout(src: bytes, dst: bytes, tcp: bytes)
    requires PackIpv4(src, dst, 6, tcp, DEFAULT_FIELDS).Ok?
    ensures var b := PackIpv4(src, dst, 6, tcp, DEFAULT_FIELDS).value;
            && |b| == 20 + |tcp| && b[20..] == tcp && b[0] as int == 0x45 && b[1] == 0 && Be16(b, 2) == |b|
            && Be16(b, 4) == 0 && Be16(b, 6) == 0x4000 && b[8] as int == 64 && b[9] == 6 && b[12..16] == src && b[16..20] == dst
  {
    Ipv4Layout(src, dst, 6, tcp, DEFAULT_FIELDS);
    hide PackIpv4, WordSum, Be16;
  }

  lemma BuiltIs(dstMac: bytes, srcMac: bytes, localIp: nat, remoteIp: nat, seg: TcpSegment)
    requires BuildFrame(1, dstMac, srcMac, localIp, remoteIp, seg).Ok?
    ensures localIp < 0x1_0000_0000 && remoteIp < 0x1_0000_0000
    ensures |dstMac| == 6 && |srcMac| == 6
    ensures var tcp := PackTcp(seg, V4(U32(localIp), U32(remoteIp)));
            && tcp.Ok?
            && var packet := PackIpv4(U32(localIp), U32(remoteIp), 6, tcp.value, DEFAULT_FIELDS);
            packet.Ok?
            && BuildFrame(1, dstMac, srcMac, localIp, remoteIp, seg).value
               == dstMac + srcMac + [8, 0] + packet.value + Zeros(if |packet.value| < 46 then 46 - |packet.value| else 0)
  {
    var tcp := PackTcp(seg, V4(U32(localIp), U32(remoteIp)));
    if tcp.Ok? {
      var packet := PackIpv4(U32(localIp), U32(remoteIp), 6, tcp.value, DEFAULT_FIELDS);
      if packet.Ok? { LinkLayout(1, 0x0800, dstMac, srcMac, packet.value); }
    }
    hide PackTcp, PackIpv4, WrapLinkLayer, U32;
  }

  lemma BehindEthernet(dstMac: bytes, srcMac: bytes, packet: bytes, pad: bytes, src: bytes, dst: bytes)
    requires |dstMac| == 6 && |srcMac| == 6 && |packet| >= 20 && |src| == 4 && |dst| == 4
    requires packet[12..16] == src && packet[16..20] == dst && forall i :: 0 <= i < |pad| ==> pad[i] == 0
    ensures var f := dstMac + srcMac + [8, 0] + packet + pad;
            && f[..6] == dstMac && f[6..12] == srcMac && f[12] == 8 && f[13] == 0 && f[14] == packet[0] && f[15] == packet[1]
            && Be16(f, 16) == Be16(packet, 2) && Be16(f, 18) == Be16(packet, 4) && Be16(f, 20) == Be16(packet, 6)
            && f[22] == packet[8] && f[23] == packet[9] && Be32(f, 26) == Be32(src, 0) && Be32(f, 30) == Be32(dst, 0)
            && f[34..14 + |packet|] == packet[20..] && forall i :: 14 + |packet| <= i < |f| ==> f[i] == 0
  {
    var f := dstMac + srcMac + [8, 0] + packet + pad;
    assert forall i :: 0 <= i < |packet| ==> f[14 + i] == packet[i];
    assert forall i :: 0 <= i < 4 ==> packet[12 + i] == packet[12..16][i] && packet[16 + i] == packet[16..20][i];
    assert f[34..14 + |packet|] == packet[20..];
  }

  /** A captured frame counts exactly when every layer parses, it is IPv4 and TCP, and it is for this host. */
  lemma FrameReads(dlt: nat, localIp: nat, frame: bytes)
    ensures DecodeFrame(dlt, localIp, frame)
         == var link := StripLinkLayer(dlt, frame);
            if !link.Ok? || link.value.0 != 0x0800 then None
            else
              var ip := ParseIpv4(link.value.1);
              if !ip.Ok? || ip.value.0.proto != 6 || Be32(ip.value.0.dst, 0) != localIp then None
              else
                var tcp := ParseTcp(ip.value.1);
                if !tcp.Ok? then None else Some(Arrival(tcp.value.seg, Be32(ip.value.0.src, 0), localIp))
  {
    var link := StripLinkLayer(dlt, frame);
    if link.Ok? && ParseIpv4(link.value.1).Ok? {
      WholeWord(ParseIpv4(link.value.1).value.0.src);
      WholeWord(ParseIpv4(link.value.1).value.0.dst);
    }
    hide StripLinkLayer, ParseIpv4, ParseTcp, ToU32, Be32;
  }

  lemma WholeWord(b: bytes)
    requires |b| == 4
    ensures ToU32(b) == Be32(b, 0)
  {
    assert b[0..4] == b;
    ToU32Octets(b, 0);
  }

  /** A listener without a peer takes any segment for its port; a connection with a peer takes
      that peer's; a connection without one, in any other state, takes nothing. */
  lemma RoutedMeans(state: TcpMachine.State, port: nat, ft: Option<FourTuple>, a: Arrival)
    ensures Routed(state, port, ft, a)
       <==> match ft
            case None => (state == TcpMachine.LISTEN || state == TcpMachine.CLOSED) && a.seg.dstPort == port
            case Some(t) => t == FourTuple(a.dstIp, a.seg.dstPort, a.srcIp, a.seg.srcPort)
  {
  }

  /** The checksum completes the sum of the words to a multiple of 65535, and is 65535 only when there is nothing to sum. */
  lemma ChecksumMeans(b: bytes)
    ensures (WordSum(Padded(b)) + Checksum(b)) % 65535 == 0 && 0 <= Checksum(b) <= 0xffff
    ensures Checksum(b) == 0xffff <==> WordSum(Padded(b)) == 0
  {
    var n := WordSum(Padded(b));
    hide WordSum, Padded;
    Completed(n);
    hide Folded;
    assert n + Checksum(b) == n + 0xffff - Folded(n);
  }

  /** Flushing a queue sends a frame for every segment up to the first that cannot be framed; that one
      is lost, the rest stays queued, and the flush fails. */
  lemma {:induction false} FlushMeans(dlt: nat, dstMac: bytes, srcMac: bytes, localIp: nat, remoteIp: nat, queue: seq<TcpSegment>)
    ensures var (frames, left, ok) := Frames(dlt, dstMac, srcMac, localIp, remoteIp, queue);
            var k := |frames|;
            && k <= |queue| && (ok <==> k == |queue|)
            && (forall i :: 0 <= i < k ==> BuildFrame(dlt, dstMac, srcMac, localIp, remoteIp, queue[i]) == Ok(frames[i]))
            && (k < |queue| ==> !BuildFrame(dlt, dstMac, srcMac, localIp, remoteIp, queue[k]).Ok?)
            && left == if k < |queue| then queue[k + 1..] else []
  {
    hide BuildFrame;
    if queue != [] { FlushMeans(dlt, dstMac, srcMac, localIp, remoteIp, queue[1..]); }
  }
}
