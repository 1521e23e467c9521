/** Octets and the big-endian integers the wire formats are made of. */
module Bytes {
  type byte = i: int | 0 <= i < 256

  type bytes = seq<byte>

  datatype Option<+T> = None | Some(value: T)

  // ValueError is raised by the code itself, StructError by struct.pack for a number that does not fit.
  datatype Result<+T> = Ok(value: T) | ValueError | StructError

  function Zeros(n: nat): (r: bytes)
    ensures |r| == n
    ensures forall i :: 0 <= i < n ==> r[i] == 0
  {
    seq(n, _ => 0)
  }

  // struct.pack("!H", n)
  function U16(n: int): (r: bytes)
    requires 0 <= n < 0x1_0000
    ensures |r| == 2 && ToU16(r) == n
  {
    [n / 256, n % 256]
  }

  function ToU16(b: bytes): (n: int)
    requires |b| == 2
    ensures 0 <= n < 0x1_0000
  {
    (b[0] as int) * 256 + b[1]
  }

  // struct.pack("!I", n)
  function U32(n: int): (r: bytes)
    requires 0 <= n < 0x1_0000_0000
    ensures |r| == 4 && ToU32(r) == n
  {
    U16(n / 0x1_0000) + U16(n % 0x1_0000)
  }

  function ToU32(b: bytes): (n: int)
    requires |b| == 4
    ensures 0 <= n < 0x1_0000_0000
  {
    ToU16(b[..2]) * 0x1_0000 + ToU16(b[2..])
  }
}
