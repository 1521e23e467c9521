/** The IPv4 header (RFC 791) and the two pseudo-headers. */
module Ipv4 {
  import opened Bytes
  import opened InternetChecksum

  type Ip4 = b: bytes | |b| == 4 witness [0, 0, 0, 0]
  type Ip6 = b: bytes | |b| == 16 witness Zeros(16)

  const IPV4_HDR_LEN := 20
  const PROTO_TCP := 6
  const FLAG_DF := 0x4000

  /** What the sender chooses; the rest of the header follows from it. */
  datatype Ipv4Fields = Ipv4Fields(ident: nat, ttl: nat, tos: nat, flags: nat, fragOffset: nat)

  const DEFAULT_FIELDS := Ipv4Fields(0, 64, 0, FLAG_DF, 0)

  datatype Ipv4Header = Ipv4Header(ihl: nat, tos: nat, totalLen: nat, ident: nat, flags: nat, fragOffset: nat,
                                   ttl: nat, proto: nat, checksum: nat, src: Ip4, dst: Ip4, rawHeader: bytes)

  function HeaderBytes(src: Ip4, dst: Ip4, proto: byte, totalLen: nat, f: Ipv4Fields, csum: int): (r: bytes)
    requires totalLen < 0x1_0000 && f.tos < 256 && f.ttl < 256 && 0 <= csum < 0x1_0000
    ensures |r| == IPV4_HDR_LEN
  {
    [0x45, f.tos] + U16(totalLen) + U16(f.ident % 0x1_0000)
    + U16(f.flags / 0x2000 % 8 * 0x2000 + f.fragOffset % 0x2000)
    + [f.ttl, proto] + U16(csum) + src + dst
  }

  function PackIpv4(src: bytes, dst: bytes, proto: byte, payload: bytes, f: Ipv4Fields): (r: Result<bytes>) {
    var totalLen := IPV4_HDR_LEN + |payload|;
    if |src| != 4 || |dst| != 4 then ValueError
    else if totalLen >= 0x1_0000 || f.tos >= 256 || f.ttl >= 256 then StructError
    else Ok(HeaderBytes(src, dst, proto, totalLen, f, Checksum(HeaderBytes(src, dst, proto, totalLen, f, 0))) + payload)
  }

  function ParseIpv4(buf: bytes): (r: Result<(Ipv4Header, bytes)>) {
    if |buf| < IPV4_HDR_LEN then ValueError
    else if buf[0] / 16 != 4 then ValueError
    else
      var ihl := buf[0] % 16;
      var headerLen := ihl * 4;
      if ihl < 5 || |buf| < headerLen then ValueError
      else
        var totalLen := ToU16(buf[2..4]);
        var frag := ToU16(buf[6..8]);
        if totalLen < headerLen then ValueError
        else
          var payload := if totalLen <= |buf| then buf[headerLen..totalLen] else buf[headerLen..];
          Ok((Ipv4Header(ihl, buf[1], totalLen, ToU16(buf[4..6]), frag / 0x2000 * 0x2000, frag % 0x2000,
                         buf[8], buf[9], ToU16(buf[10..12]), buf[12..16], buf[16..20], buf[..headerLen]), payload))
  }

  predicate ValidIpv4(buf: bytes) {
    if |buf| < IPV4_HDR_LEN then false
    else var n := buf[0] % 16 * 4; Checksum(if n <= |buf| then buf[..n] else buf) == 0
  }

  // struct.pack("!4s4sBBH")
  function PseudoHeader4(src: Ip4, dst: Ip4, proto: byte, length: nat): (r: bytes)
    requires length < 0x1_0000
    ensures |r| == 12
  {
    src + dst + [0, proto] + U16(length)
  }

  // struct.pack("!16s16sI3xB")
  function PseudoHeader6(src: Ip6, dst: Ip6, proto: byte, length: nat): (r: bytes)
    requires length < 0x1_0000_0000
    ensures |r| == 40
  {
    src + dst + U32(length) + [0, 0, 0, proto]
  }

  // Where each field of the header is.
  lemma HeaderFields(src: Ip4, dst: Ip4, proto: byte, totalLen: nat, f: Ipv4Fields, csum: int)
    requires totalLen < 0x1_0000 && f.tos < 256 && f.ttl < 256 && 0 <= csum < 0x1_0000
    ensures var h := HeaderBytes(src, dst, proto, totalLen, f, csum);
            && h[0] == 0x45 && h[1] == f.tos && h[2..4] == U16(totalLen) && h[4..6] == U16(f.ident % 0x1_0000)
            && h[6..8] == U16(f.flags / 0x2000 % 8 * 0x2000 + f.fragOffset % 0x2000)
            && h[8] == f.ttl && h[9] == proto && h[10..12] == U16(csum) && h[12..16] == src && h[16..20] == dst
  {
    hide U16;
  }

  lemma HeaderChecksum(src: Ip4, dst: Ip4, proto: byte, totalLen: nat, f: Ipv4Fields, csum: int)
    requires totalLen < 0x1_0000 && f.tos < 256 && f.ttl < 256 && 0 <= csum < 0x1_0000
    ensures HeaderBytes(src, dst, proto, totalLen, f, csum) == Patch(HeaderBytes(src, dst, proto, totalLen, f, 0), 10, csum)
  {
    var front := [0x45, f.tos] + U16(totalLen) + U16(f.ident % 0x1_0000)
                 + U16(f.flags / 0x2000 % 8 * 0x2000 + f.fragOffset % 0x2000) + [f.ttl, proto];
    var h := HeaderBytes(src, dst, proto, totalLen, f, 0);
    assert h == front + U16(0) + (src + dst);
    assert h[..10] == front && h[12..] == src + dst;
    assert HeaderBytes(src, dst, proto, totalLen, f, csum) == front + U16(csum) + (src + dst);
    hide U16;
  }

  /** Every packet sent verifies, and what follows it on the wire does not matter. */
  lemma PackedIpv4Verifies(src: Ip4, dst: Ip4, proto: byte, payload: bytes, f: Ipv4Fields, padding: bytes)
    requires PackIpv4(src, dst, proto, payload, f).Ok?
    ensures ValidIpv4(PackIpv4(src, dst, proto, payload, f).value + padding)
  {
    var totalLen := IPV4_HDR_LEN + |payload|;
    var zeroed := HeaderBytes(src, dst, proto, totalLen, f, 0);
    var csum := Checksum(zeroed);
    var h := HeaderBytes(src, dst, proto, totalLen, f, csum);
    HeaderFields(src, dst, proto, totalLen, f, 0);
    HeaderFields(src, dst, proto, totalLen, f, csum);
    HeaderChecksum(src, dst, proto, totalLen, f, csum);
    assert zeroed[10] == zeroed[10..12][0] && zeroed[11] == zeroed[10..12][1];
    PatchedVerifies(zeroed, 10);
    assert (h + payload + padding)[..20] == h;
    hide HeaderBytes, Checksum;
  }

  /** Parsing what was packed gives every field and exactly the payload, whatever padding follows. */
  lemma Ipv4RoundTrip(src: Ip4, dst: Ip4, proto: byte, payload: bytes, f: Ipv4Fields, padding: bytes)
    requires PackIpv4(src, dst, proto, payload, f).Ok?
    ensures var r := ParseIpv4(PackIpv4(src, dst, proto, payload, f).value + padding);
            && r.Ok? && r.value.1 == payload
            && var h := r.value.0;
            && h.src == src && h.dst == dst && h.proto == proto && h.totalLen == 20 + |payload| && h.ihl == 5
            && h.tos == f.tos && h.ttl == f.ttl && h.ident == f.ident % 0x1_0000
            && h.flags == f.flags / 0x2000 % 8 * 0x2000 && h.fragOffset == f.fragOffset % 0x2000
  {
    var totalLen := IPV4_HDR_LEN + |payload|;
    var csum := Checksum(HeaderBytes(src, dst, proto, totalLen, f, 0));
    var h := HeaderBytes(src, dst, proto, totalLen, f, csum);
    HeaderFields(src, dst, proto, totalLen, f, csum);
    hide HeaderBytes, Checksum;
    ParseAfter(h, payload, padding);
    FragmentField(f.flags / 0x2000 % 8, f.fragOffset % 0x2000);
    hide ParseIpv4, U16, ToU16;
  }

  lemma FragmentField(flags: nat, offset: nat)
    requires offset < 0x2000
    ensures (flags * 0x2000 + offset) / 0x2000 * 0x2000 == flags * 0x2000 && (flags * 0x2000 + offset) % 0x2000 == offset
  {
  }

  // Parsing looks at the header and takes as much of the rest as the header announces.
  lemma ParseAfter(h: bytes, payload: bytes, padding: bytes)
    requires |h| == 20 && h[0] == 0x45 && ToU16(h[2..4]) == 20 + |payload|
    ensures var frag := ToU16(h[6..8]);
            ParseIpv4(h + payload + padding)
            == Ok((Ipv4Header(5, h[1], 20 + |payload|, ToU16(h[4..6]), frag / 0x2000 * 0x2000, frag % 0x2000,
                              h[8], h[9], ToU16(h[10..12]), h[12..16], h[16..20], h), payload))
  {
    var buf := h + payload + padding;
    var rest := payload + padding;
    assert buf == h + rest;
    SliceStays(h, rest, 2, 4);
    SliceStays(h, rest, 4, 6);
    SliceStays(h, rest, 6, 8);
    SliceStays(h, rest, 10, 12);
    SliceStays(h, rest, 12, 16);
    SliceStays(h, rest, 16, 20);
    assert buf[..20] == h;
    assert buf[20..20 + |payload|] == payload;
    hide ToU16;
  }

  lemma SliceStays(h: bytes, rest: bytes, i: nat, j: nat)
    requires i <= j <= |h|
    ensures (h + rest)[i..j] == h[i..j]
  {
  }
}
