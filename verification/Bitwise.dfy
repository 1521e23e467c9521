/** Bitwise operations on octets and octet strings. */
module Bitwise {
  import opened Bytes

  datatype BitOp = Xor | Or | And

  function Bit(op: BitOp, a: nat, b: nat): nat {
    match op
    case Xor => if a % 2 != b % 2 then 1 else 0
    case Or => if a % 2 == 1 || b % 2 == 1 then 1 else 0
    case And => if a % 2 == 1 && b % 2 == 1 then 1 else 0
  }

  function Pow2(k: nat): nat { if k == 0 then 1 else 2 * Pow2(k - 1) }

  /** The operation on the low k bits. */
  function Bits(op: BitOp, a: nat, b: nat, k: nat): nat {
    if k == 0 then 0 else 2 * Bits(op, a / 2, b / 2, k - 1) + Bit(op, a, b)
  }

  lemma {:induction false} BitsBound(op: BitOp, a: nat, b: nat, k: nat)
    ensures Bits(op, a, b, k) < Pow2(k)
  {
    if k > 0 { BitsBound(op, a / 2, b / 2, k - 1); }
  }

  lemma {:induction false} XorInvolution(a: nat, b: nat, k: nat)
    requires a < Pow2(k)
    ensures Bits(Xor, Bits(Xor, a, b, k), b, k) == a
  {
    if k > 0 { XorInvolution(a / 2, b / 2, k - 1); }
  }

  lemma {:induction false} XorFixes(a: nat, b: nat, k: nat)
    requires a < Pow2(k) && b < Pow2(k)
    ensures Bits(Xor, a, b, k) == a <==> b == 0
  {
    if k > 0 { XorFixes(a / 2, b / 2, k - 1); }
  }

  function OnBytes(op: BitOp, a: byte, b: byte): byte {
    BitsBound(op, a, b, 8);
    assert Pow2(8) == 256;
    Bits(op, a, b, 8)
  }

  lemma XorBytes(a: byte, b: byte)
    ensures OnBytes(Xor, OnBytes(Xor, a, b), b) == a
    ensures OnBytes(Xor, a, b) == a <==> b == 0
  {
    assert Pow2(8) == 256;
    XorInvolution(a, b, 8);
    XorFixes(a, b, 8);
  }

  function Shorter(a: bytes, b: bytes): nat { if |a| < |b| then |a| else |b| }

  /** Octet by octet, as far as the shorter string goes. */
  function Zip(op: BitOp, a: bytes, b: bytes): (r: bytes)
    ensures |r| == Shorter(a, b)
    ensures forall i :: 0 <= i < |r| ==> r[i] == OnBytes(op, a[i], b[i])
  {
    seq(Shorter(a, b), i requires 0 <= i < Shorter(a, b) => OnBytes(op, a[i], b[i]))
  }

  function Cycled(i: nat, n: nat): (k: nat)
    requires n > 0
    ensures k < n && (i < n ==> k == i)
  {
    i % n
  }

  /** Cycles through both strings and clips to the shorter; an empty one cannot be cycled through. */
  method XorBufs(a: bytes, b: bytes) returns (r: Result<bytes>)
    ensures r == XorOf(a, b)
  {
    var longer := if |a| < |b| then |b| else |a|;
    if longer > 0 && (a == [] || b == []) {
      return ValueError;
    }
    var result: bytes := [];
    hide OnBytes;
    for i := 0 to longer
      invariant |result| == i
      invariant forall k :: 0 <= k < i && k < Shorter(a, b) ==> result[k] == OnBytes(Xor, a[k], b[k])
    {
      var k, l := Cycled(i, |a|), Cycled(i, |b|);
      result := result + [OnBytes(Xor, a[k], b[l])];
    }
    assert result[..Shorter(a, b)] == Zip(Xor, a, b);
    return Ok(result[..Shorter(a, b)]);
  }

  function XorOf(a: bytes, b: bytes): Result<bytes> {
    if (a == []) != (b == []) then ValueError else Ok(Zip(Xor, a, b))
  }

  /** A mask at least as long as the data comes off again, and changes nothing only if it is all zeros there. */
  lemma Unmasks(data: bytes, mask: bytes)
    requires |data| <= |mask|
    ensures Zip(Xor, Zip(Xor, data, mask), mask) == data
    ensures Zip(Xor, data, mask) == data <==> forall i :: 0 <= i < |data| ==> mask[i] == 0
  {
    forall i | 0 <= i < |data|
      ensures OnBytes(Xor, OnBytes(Xor, data[i], mask[i]), mask[i]) == data[i]
      ensures OnBytes(Xor, data[i], mask[i]) == data[i] <==> mask[i] == 0
    {
      XorBytes(data[i], mask[i]);
    }
    hide OnBytes;
  }
}
