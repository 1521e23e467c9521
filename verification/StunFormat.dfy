/** STUN addresses as section 15.2 of RFC 5389 has them: the port exclusive-ored with 0x2112, the
    address with the cookie followed by the transaction id. */
module StunFormat {
  import opened Bytes
  import opened Bitwise
  import opened Stun
  import IpRange

  // --- Bits ---------------------------------------------------------------------------------

  /** What each operation does to one bit. */
  predicate BitTable(op: BitOp, a: bool, b: bool) {
    match op
    case Xor => a != b
    case Or => a || b
    case And => a && b
  }

  predicate BitAt(n: nat, k: nat) { Pow2(k) > 0 && n / Pow2(k) % 2 == 1 }

  lemma {:induction false} BitsAt(op: BitOp, a: nat, b: nat, n: nat, k: nat)
    requires k < n
    ensures BitAt(Bits(op, a, b, n), k) <==> BitTable(op, BitAt(a, k), BitAt(b, k))
  {
    if k == 0 {
      assert Pow2(0) == 1;
    } else {
      BitsAt(op, a / 2, b / 2, n - 1, k - 1);
      BitHalved(a, k);
      BitHalved(b, k);
      BitHalved(Bits(op, a, b, n), k);
      assert Bits(op, a, b, n) / 2 == Bits(op, a / 2, b / 2, n - 1);
      hide BitAt, Bits;
    }
  }

  lemma BitHalved(n: nat, k: nat)
    requires k > 0
    ensures BitAt(n, k) <==> BitAt(n / 2, k - 1)
  {
    var p := Pow2(k - 1);
    if p > 0 { DivTwice(n, p); }
  }

  lemma DivTwice(n: nat, p: nat)
    requires p > 0
    ensures n / (2 * p) == n / 2 / p
  {
    IpRange.DivMod(n, 2 * p, n / 2 / p, 2 * (n / 2 % p) + n % 2);
  }

  /** Octets are combined bit by bit. */
  lemma OctetBits(op: BitOp, a: byte, b: byte, k: nat)
    requires k < 8
    ensures BitAt(OnBytes(op, a, b), k) <==> BitTable(op, BitAt(a, k), BitAt(b, k))
  {
    BitsAt(op, a, b, 8, k);
    hide BitAt, BitTable;
  }

  // --- Reading an address ----------------------------------------------------------------------

  /** One octet for the family, two for the port, the rest the address; family 2 is IPv6,
      anything else reads as IPv4. */
  function AddrLen(data: bytes): nat { if |data| >= 2 && data[1] == 2 then 16 else 4 }

  predicate Xored(code: bytes) { code in {[0x00, 0x20], [0x00, 0x12], [0x00, 0x16]} }

  /** Codes 0x0020, 0x0012 and 0x0016 in a message with a transaction id. */
  lemma XoredReads(mask: Mask, code: bytes, data: bytes)
    requires Xored(code) && mask.txid != []
    ensures var n := AddrLen(data);
            var m := mask.cookie + mask.txid;
            if |data| < 4 + n || |m| < n then DecodeAddr(mask, code, data) == ValueError
            else
              DecodeAddr(mask, code, data).Ok?
              && DecodeAddr(mask, code, data).value.0
                 == (Zip(Xor, data[4..4 + n], m), ToU16(Zip(Xor, data[2..4], [0x21, 0x12])))
  {
    var n, m := AddrLen(data), mask.cookie + mask.txid;
    if |data| >= 4 + n && |m| >= n { UnmaskedParts(mask, data, n); }
    hide OnBytes, ToU16, Zip;
  }

  lemma UnmaskedParts(mask: Mask, data: bytes, n: nat)
    requires |data| >= 4 + n && |mask.cookie + mask.txid| >= n
    ensures var plain := Zip(Xor, data, MaskBytes(mask));
            && |plain| >= 4 + n && plain[4..4 + n] == Zip(Xor, data[4..4 + n], mask.cookie + mask.txid)
            && plain[2..4] == Zip(Xor, data[2..4], [0x21, 0x12])
  {
    hide OnBytes, Zip;
  }

  /** Any other code but 0x8020, or no transaction id: the fields as they are. */
  lemma PlainReads(mask: Mask, code: bytes, data: bytes)
    requires code != [0x80, 0x20] && (!Xored(code) || mask.txid == [])
    ensures var n := AddrLen(data);
            DecodeAddr(mask, code, data)
            == if |data| < 4 + n then ValueError else Ok(((data[4..4 + n], (data[2] as int) * 256 + data[3]), data))
  {
    hide Zip;
  }

  /** Code 0x8020: both fields are masked from the start of the cookie. */
  lemma FieldwiseReads(mask: Mask, data: bytes)
    requires |mask.cookie + mask.txid| >= 16
    ensures var n := AddrLen(data);
            var m := mask.cookie + mask.txid;
            DecodeAddr(mask, [0x80, 0x20], data)
            == if |data| < 4 + n then ValueError
               else Ok(((Zip(Xor, data[4..4 + n], m), ToU16(Zip(Xor, data[2..4], m))), data))
  {
    hide OnBytes, ToU16;
  }

  // --- Writing one -------------------------------------------------------------------------------

  /** The attribute of section 15.2. */
  function XorAddress(cookie: bytes, txid: bytes, f: Family, ip: bytes, port: int): bytes
    requires 0 <= port < 0x1_0000
  {
    [0, if f == Inet then 1 else 2] + Zip(Xor, [port / 256, port % 256], [0x21, 0x12]) + Zip(Xor, ip, cookie + txid)
  }

  lemma XoredWrites(mask: Mask, f: Family, e: Endpoint, code: bytes)
    requires Xored(code) && mask.txid != [] && |e.0| == (if f == Inet then 4 else 16) && 0 <= e.1 < 0x1_0000
    ensures EncodeAddr(mask, f, e, code)
         == if |mask.cookie + mask.txid| < |e.0| then ValueError else Ok(XorAddress(mask.cookie, mask.txid, f, e.0, e.1))
  {
    var plain := PlainAddr(f, e);
    PlainAddrFields(f, e);
    XoredReads(mask, code, plain);
    if |mask.cookie + mask.txid| >= |e.0| {
      MaskedParts(mask, f, e);
      assert DecodeAddr(mask, code, plain).value.1 == Zip(Xor, plain, MaskBytes(mask));
    }
    hide OnBytes, ToU16, Zip, XorAddress, MaskBytes, PlainAddr;
  }

  lemma MaskedParts(mask: Mask, f: Family, e: Endpoint)
    requires |e.0| == (if f == Inet then 4 else 16) && 0 <= e.1 < 0x1_0000 && |mask.cookie + mask.txid| >= |e.0|
    ensures Zip(Xor, PlainAddr(f, e), MaskBytes(mask)) == XorAddress(mask.cookie, mask.txid, f, e.0, e.1)
  {
    var fam: byte := if f == Inet then 1 else 2;
    XorBytes(0, 0);
    XorBytes(fam, 0);
    hide OnBytes;
  }

  /** Plain attributes, and code 0x8020, are written unmasked. */
  lemma PlainWrites(mask: Mask, f: Family, e: Endpoint, code: bytes)
    requires (!Xored(code) && code != [0x80, 0x20]) || mask.txid == []
    requires code != [0x80, 0x20] && |e.0| == (if f == Inet then 4 else 16) && 0 <= e.1 < 0x1_0000
    ensures EncodeAddr(mask, f, e, code) == Ok([0, if f == Inet then 1 else 2] + [e.1 / 256, e.1 % 256] + e.0)
  {
    PlainAddrFields(f, e);
    PlainReads(mask, code, PlainAddr(f, e));
    hide DecodeAddr;
  }

  /** Combining two strings fails when exactly one of them is empty. */
  lemma XorMeans(a: bytes, b: bytes)
    ensures XorOf(a, b) == if (a == [] && b != []) || (a != [] && b == []) then ValueError else Ok(Zip(Xor, a, b))
  {
  }

  /** Code 0x8020 is written unmasked; an address of the wrong length or a port out of range is an error. */
  lemma FieldwiseWrites(mask: Mask, f: Family, e: Endpoint, code: bytes)
    ensures |e.0| != (if f == Inet then 4 else 16) ==> EncodeAddr(mask, f, e, code) == ValueError
    ensures |e.0| == (if f == Inet then 4 else 16) && !(0 <= e.1 < 65536) ==> EncodeAddr(mask, f, e, code) == StructError
    ensures |e.0| == (if f == Inet then 4 else 16) && 0 <= e.1 < 65536 && |mask.cookie + mask.txid| >= 16 ==>
              EncodeAddr(mask, f, e, [0x80, 0x20]) == Ok([0, if f == Inet then 1 else 2] + [e.1 / 256, e.1 % 256] + e.0)
  {
    if |e.0| == IpLength(f) && 0 <= e.1 < 0x1_0000 {
      PlainAddrFields(f, e);
      if |mask.cookie + mask.txid| >= 16 { FieldwiseReads(mask, PlainAddr(f, e)); }
    }
    hide DecodeAddr;
  }
}
