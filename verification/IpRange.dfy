/** Blocks of IP addresses, held as integers. */
module IpRange {
  import opened Bytes
  import opened Bitwise

  datatype Af = Ip4 | Ip6

  function Width(af: Af): nat { if af == Ip4 then 32 else 128 }

  // --- Counting bits ----------------------------------------------------------------------

  /** a & b */
  function AndOf(a: nat, b: nat): nat {
    if a == 0 then 0 else 2 * AndOf(a / 2, b / 2) + Bit(And, a, b)
  }

  /** How many bits of n are set. */
  function Ones(n: nat): nat { if n == 0 then 0 else n % 2 + Ones(n / 2) }

  lemma {:induction false} AndSelf(n: nat)
    ensures AndOf(n, n) == n
  {
    if n > 0 { AndSelf(n / 2); }
  }

  /** n & (n - 1) is n without its lowest set bit. */
  lemma {:induction false} ClearsLowest(n: nat)
    requires n > 0
    ensures AndOf(n, n - 1) < n && Ones(AndOf(n, n - 1)) == Ones(n) - 1
  {
    if n % 2 == 1 {
      assert (n - 1) / 2 == n / 2;
      AndSelf(n / 2);
    } else {
      assert (n - 1) / 2 == n / 2 - 1;
      ClearsLowest(n / 2);
    }
  }

  /** Kernighan's loop. */
  method HammingWeight(value: nat) returns (count: nat)
    ensures count == Ones(value)
  {
    var n := value;
    count := 0;
    while n != 0
      invariant count + Ones(n) == Ones(value)
      decreases n
    {
      count := count + 1;
      ClearsLowest(n);
      n := AndOf(n, n - 1);
    }
  }

  /** The netmask with b host bits. */
  function Netmask(width: nat, b: nat): (m: int) { Pow2(width) - Pow2(b) }

  lemma {:induction false} Pow2Grows(a: nat, b: nat)
    requires a <= b
    ensures 0 < Pow2(a) <= Pow2(b)
  {
    if a < b { Pow2Grows(a, b - 1); } else if a > 0 { Pow2Grows(a - 1, a - 1); }
  }

  /** The netmask's ones give back its host bits. */
  predicate Inverts(width: nat, b: nat) {
    var m := Netmask(width, b); m >= 0 && width - Ones(m) == b
  }

  /** Counting the ones of a contiguous netmask gives back its host bits. */
  lemma {:induction false} NetmaskInverts(width: nat, b: nat)
    requires b <= width
    ensures Netmask(width, b) >= 0 && width - Ones(Netmask(width, b)) == b
  {
    InvertsAll(width, b);
    hide Ones, Netmask;
  }

  lemma {:induction false} InvertsAll(width: nat, b: nat)
    requires b <= width
    ensures Inverts(width, b)
  {
    hide Inverts;
    if width == 0 {
      InvertsNothing();
    } else if b > 0 {
      InvertsAll(width - 1, b - 1);
      InvertsStep(width, b);
    } else {
      InvertsAll(width - 1, 0);
      InvertsStep(width, 0);
    }
  }

  lemma InvertsNothing()
    ensures Inverts(0, 0)
  {
  }

  lemma InvertsStep(width: nat, b: nat)
    requires 0 < width && b <= width && Inverts(width - 1, if b > 0 then b - 1 else 0)
    ensures Inverts(width, b)
  {
    NetmaskStep(width, b);
    OneMoreBit(Netmask(width, b), Netmask(width - 1, if b > 0 then b - 1 else 0), if b > 0 then 0 else 1);
    hide Ones, Netmask;
  }

  lemma NetmaskStep(width: nat, b: nat)
    requires b <= width && width > 0
    ensures Netmask(width, b) == if b > 0 then 2 * Netmask(width - 1, b - 1) else 2 * Netmask(width - 1, 0) + 1
  {
  }

  lemma OneMoreBit(m: nat, n: nat, d: nat)
    requires d < 2 && m == 2 * n + d
    ensures Ones(m) == Ones(n) + d
  {
  }

  /** get_bits: the low bits of n under a mask of ones. */
  function GetBits(n: nat, length: nat): nat
  {
    Pow2Grows(0, length);
    AndOf(Pow2(length) - 1, n)
  }

  lemma {:induction false} GetBitsIsMod(n: nat, length: nat)
    ensures Pow2(length) > 0 && GetBits(n, length) == n % Pow2(length) <= n
  {
    Pow2Grows(0, length);
    if length > 0 {
      var p := Pow2(length - 1);
      Pow2Grows(0, length - 1);
      GetBitsIsMod(n / 2, length - 1);
      assert (2 * p - 1) / 2 == p - 1;
      HalfMod(n, p);
    }
    ModBelow(n, Pow2(length));
  }

  lemma ModBelow(n: nat, p: nat)
    requires p > 0
    ensures n % p <= n
  {
    if n < p { DivMod(n, p, 0, n); }
  }

  lemma HalfMod(n: nat, p: nat)
    requires p > 0
    ensures n % (2 * p) == 2 * (n / 2 % p) + n % 2
  {
    var q, r := n / 2 / p, n / 2 % p;
    DivMod(n, 2 * p, q, 2 * r + n % 2);
  }

  lemma DivMod(n: int, d: int, q: int, r: int)
    requires d > 0 && n == q * d + r && 0 <= r < d
    ensures n / d == q && n % d == r
  {
    var k := n / d - q;
    assert k * d == r - n % d;
    if k > 0 { Monotone(d, 1, k); }
    if k < 0 { Monotone(d, k, -1); }
  }

  // --- Blocks -------------------------------------------------------------------------------

  /** A block: its host bits, network and host part, number of hosts, and the range it is compared by. */
  datatype Block = Block(af: Af, bitlen: nat, nw: nat, host: nat, hostNo: nat, lo: nat, hi: nat)

  /** Without netmask or bitlen a single host; a netmask takes precedence. */
  function MakeBlock(af: Af, ip: nat, netmask: Option<nat>, bitlen: Option<nat>): (r: Result<Block>) {
    if ip >= Pow2(Width(af)) || netmask == Some(ip) then ValueError
    else
      var b: int := match netmask
                    case Some(m) => Width(af) - Ones(m)
                    case None => (match bitlen case Some(n) => n case None => 0);
      if b < 0 || b > Width(af) then ValueError else Ok(BlockOf(af, ip, b))
  }

  function BlockOf(af: Af, ip: nat, b: nat): Block {
    GetBitsIsMod(ip, b);
    Pow2Grows(if b == 0 then 0 else 1, b);
    assert Pow2(1) == 2;
    var host := if b == 0 then 0 else GetBits(ip, b);
    var hostNo := if b == 0 || b == Width(af) then 1 else Pow2(b) - 1;
    Block(af, b, ip - host, host, hostNo, ip - host, if b == 0 then ip - host else ip - host + hostNo)
  }

  /** The constructor, step by step. */
  method NewRange(af: Af, ip: nat, netmask: Option<nat>, bitlen: Option<nat>) returns (r: Result<Block>)
    ensures r == MakeBlock(af, ip, netmask, bitlen)
  {
    hide Ones, Pow2, GetBits;
    if netmask == Some(ip) || ip >= Pow2(Width(af)) {
      return ValueError;
    }
    var b: int := 0;
    if netmask.Some? {
      var weight := HammingWeight(netmask.value);
      b := Width(af) - weight;
    } else if bitlen.Some? {
      b := bitlen.value;
    }
    if b < 0 || b > Width(af) {
      return ValueError;
    }
    assert MakeBlock(af, ip, netmask, bitlen) == Ok(BlockOf(af, ip, b));
    var nw, host, hostNo := ip, 0, 1;
    if b > 0 {
      GetBitsIsMod(nw, b);
      host := GetBits(nw, b);
      nw := nw - host;
      if b != Width(af) {
        Pow2Grows(0, b);
        hostNo := Pow2(b) - 1;
      }
    }
    var hi := if b == 0 then nw else nw + hostNo;
    return Ok(Block(af, b, nw, host, hostNo, nw, hi));
  }

  predicate IsBlock(x: Block) {
    exists ip: nat :: ip < Pow2(Width(x.af)) && x.bitlen <= Width(x.af) && x == BlockOf(x.af, ip, x.bitlen)
  }

  lemma MadeIsBlock(af: Af, ip: nat, netmask: Option<nat>, bitlen: Option<nat>)
    requires MakeBlock(af, ip, netmask, bitlen).Ok?
    ensures var x := MakeBlock(af, ip, netmask, bitlen).value;
            IsBlock(x) && x.af == af && x.nw + x.host == ip
    ensures forall b: nat :: b <= Width(af) && netmask == Some(Netmask(Width(af), b)) ==>
                               MakeBlock(af, ip, netmask, bitlen).value.bitlen == b
  {
    GetBitsIsMod(ip, MakeBlock(af, ip, netmask, bitlen).value.bitlen);
    forall b: nat | b <= Width(af) && netmask == Some(Netmask(Width(af), b)) ensures Width(af) - Ones(netmask.value) == b {
      NetmaskInverts(Width(af), b);
    }
    hide Pow2, Ones, GetBits;
  }

  /** The host bits asked for: the netmask decides if there is one, and a plain address has none. */
  function HostBits(width: nat, netmask: Option<nat>, bitlen: Option<nat>): int {
    match netmask
    case Some(m) => width - Ones(m)
    case None => if bitlen == None then 0 else bitlen.value
  }

  /** Exactly when a block is made, and with how many host bits. */
  lemma MadeIff(af: Af, ip: nat, netmask: Option<nat>, bitlen: Option<nat>)
    ensures var width := if af == Ip4 then 32 else 128;
            var r := MakeBlock(af, ip, netmask, bitlen);
            if ip < Pow2(width) && netmask != Some(ip) && 0 <= HostBits(width, netmask, bitlen) <= width then
              r.Ok? && r.value.bitlen == HostBits(width, netmask, bitlen)
            else r == ValueError
  {
    hide Pow2, Ones, GetBits;
  }

  predicate Intersects(alo: nat, ahi: nat, blo: nat, bhi: nat) {
    if alo == blo && ahi == bhi then true
    else if alo < blo || (alo == blo && ahi <= bhi) then blo <= ahi
    else alo <= bhi
  }

  /** IPRange equality: the two ranges overlap. */
  predicate Equal(x: Block, y: Block) { Intersects(x.lo, x.hi, y.lo, y.hi) }

  /** The addresses of the block an address with b host bits lies in. */
  predicate InBlock(x: Block, ip: nat) { x.nw <= ip < x.nw + Pow2(x.bitlen) }

  ghost predicate Contains(x: Block, y: Block) { forall ip: nat :: InBlock(y, ip) ==> InBlock(x, ip) }

  /** The network address is aligned, and the range is the whole block unless all bits are host bits. */
  lemma BlockShape(x: Block)
    requires IsBlock(x)
    ensures Pow2(x.bitlen) > 0 && x.nw % Pow2(x.bitlen) == 0 && x.lo == x.nw && x.host < Pow2(x.bitlen) && x.hostNo >= 1
    ensures x.bitlen < Width(x.af) ==> x.hi == x.nw + Pow2(x.bitlen) - 1
    ensures x.bitlen < Width(x.af) ==> x.hostNo == if x.bitlen == 0 then 1 else Pow2(x.bitlen) - 1
    ensures x.bitlen == Width(x.af) ==> x.nw == 0 && x.hi == 1 && x.hostNo == 1
  {
    var ip: nat :| ip < Pow2(Width(x.af)) && x.bitlen <= Width(x.af) && x == BlockOf(x.af, ip, x.bitlen);
    var p := Pow2(x.bitlen);
    GetBitsIsMod(ip, x.bitlen);
    Pow2Grows(0, x.bitlen);
    if x.bitlen > 0 {
      Pow2Grows(1, x.bitlen);
      Aligned(ip, p);
    }
    if x.bitlen == Width(x.af) { Small(ip, p); }
    assert Pow2(0) == 1 && Pow2(1) == 2;
    hide Pow2, GetBits;
  }

  lemma Small(n: nat, p: nat)
    requires n < p
    ensures n % p == n
  {
  }

  lemma Aligned(n: nat, p: nat)
    requires p > 0
    ensures (n - n % p) % p == 0
  {
    DivMod(n - n % p, p, n / p, 0);
  }

  lemma {:induction false} Pow2Divides(a: nat, b: nat) returns (k: nat)
    requires a <= b
    ensures k > 0 && Pow2(b) == Pow2(a) * k
  {
    if a == b {
      k := 1;
    } else {
      var j := Pow2Divides(a, b - 1);
      k := 2 * j;
    }
  }

  /** Aligned blocks that overlap are nested: the smaller lies inside the larger. */
  lemma OverlapNests(n1: nat, d: nat, n2: nat, k: nat)
    requires d > 0 && k > 0 && n1 % d == 0 && n2 % (d * k) == 0
    requires n1 < n2 + d * k && n2 < n1 + d
    ensures n2 <= n1 && n1 + d <= n2 + d * k
  {
    var q1 := n1 / d;
    var q2 := n2 / (d * k);
    assert n1 == d * q1;
    assert n2 == d * k * q2 == d * (k * q2) by { Reorder(d, k, q2); }
    Squeeze(d, q1, k * q2 + k);
    Squeeze(d, k * q2, q1 + 1);
    assert d * (k * q2 + k) == n2 + d * k;
    Monotone(d, k * q2, q1);
    Monotone(d, q1 + 1, k * q2 + k);
  }

  lemma Reorder(d: int, k: int, q: int)
    ensures d * k * q == d * (k * q)
  {
  }

  lemma Squeeze(d: int, a: int, b: int)
    requires d > 0 && d * a < d * b
    ensures a < b
  {
  }

  lemma Monotone(d: int, a: int, b: int)
    requires d > 0 && a <= b
    ensures d * a <= d * b
  {
  }

  lemma SmallerInside(x: Block, y: Block)
    requires IsBlock(x) && IsBlock(y) && x.bitlen <= y.bitlen < Width(y.af) && x.bitlen < Width(x.af)
    ensures Equal(x, y) <==> Contains(y, x)
  {
    BlockShape(x);
    BlockShape(y);
    var k := Pow2Divides(x.bitlen, y.bitlen);
    if Equal(x, y) {
      OverlapNests(x.nw, Pow2(x.bitlen), y.nw, k);
    } else {
      assert InBlock(x, x.nw);
    }
    hide Pow2, IsBlock;
  }

  /** For blocks of one family that are not the whole address space, equality is nesting. */
  lemma EqualIffNested(x: Block, y: Block)
    requires IsBlock(x) && IsBlock(y) && x.af == y.af && x.bitlen < Width(x.af) && y.bitlen < Width(y.af)
    ensures Equal(x, y) <==> Contains(x, y) || Contains(y, x)
    ensures Equal(x, y) <==> Equal(y, x)
  {
    BlockShape(x);
    BlockShape(y);
    assert InBlock(x, x.nw) && InBlock(y, y.nw);
    if x.bitlen <= y.bitlen {
      SmallerInside(x, y);
      if Contains(x, y) { SmallerOnly(x, y); }
    } else {
      SmallerInside(y, x);
      if Contains(y, x) { SmallerOnly(y, x); }
    }
    hide Pow2, IsBlock;
  }

  lemma SmallerOnly(x: Block, y: Block)
    requires IsBlock(x) && IsBlock(y) && x.bitlen <= y.bitlen && Contains(x, y)
    ensures Contains(y, x)
  {
    BlockShape(x);
    BlockShape(y);
    Pow2Grows(x.bitlen, y.bitlen);
    assert InBlock(y, y.nw) && InBlock(y, y.nw + Pow2(y.bitlen) - 1);
    hide Pow2, IsBlock;
  }

  /** With all bits host bits the block is compared by its first two addresses only: it
      contains every block, but equals only those that reach down to them. */
  lemma WholeSpaceEqualIff(x: Block, y: Block)
    requires IsBlock(x) && IsBlock(y) && x.af == y.af && x.bitlen == Width(x.af)
    ensures Contains(x, y)
    ensures Equal(x, y) <==> y.nw <= 1
  {
    BlockShape(x);
    BlockShape(y);
    EndsInside(y);
    hide Pow2, IsBlock;
  }

  lemma EndsInside(y: Block)
    requires IsBlock(y)
    ensures y.nw + Pow2(y.bitlen) <= Pow2(Width(y.af))
  {
    BlockShape(y);
    NetworkBelow(y);
    var k := Pow2Divides(y.bitlen, Width(y.af));
    hide Pow2, IsBlock;
    WholeUnits(y.nw, Pow2(y.bitlen), k);
  }

  lemma NetworkBelow(y: Block)
    requires IsBlock(y)
    ensures y.bitlen <= Width(y.af) && y.nw < Pow2(Width(y.af))
  {
  }

  lemma WholeUnits(n: nat, d: nat, k: nat)
    requires d > 0 && n % d == 0 && n < d * k
    ensures n + d <= d * k
  {
    var q := n / d;
    assert n == d * q;
    Squeeze(d, q, k);
    Monotone(d, q + 1, k);
  }

  // --- Hosts --------------------------------------------------------------------------------

  /** get_value: the address at index i, counted from the front or, negative, from the back. */
  function GetValue(x: Block, i: int): (ip: nat) {
    if x.bitlen == 0 then x.nw
    else
      var offset := if i < 0 then i else i + 1;
      var host := offset % (x.hostNo + 1);
      x.nw + if host == 0 then 1 else host
  }

  function FirstHost(x: Block): nat { if x.bitlen == 0 then x.nw else x.nw + 1 }

  /** Indices 0.. count the hosts up from the first, and -1.. count them down from the last:
      each of the two runs through every host once. */
  lemma IndexBijection(x: Block, i: int)
    requires IsBlock(x)
    ensures 0 <= i < x.hostNo ==> GetValue(x, i) == FirstHost(x) + i
    ensures i < 0 <= i + x.hostNo ==> GetValue(x, i) == FirstHost(x) + x.hostNo + i
    ensures FirstHost(x) + x.hostNo - 1 == x.hi
  {
    BlockShape(x);
    if x.bitlen > 0 {
      var m: int := x.hostNo + 1;
      if 0 <= i < x.hostNo { DivMod(i + 1, m, 0, i + 1); }
      if i < 0 <= i + x.hostNo { DivMod(i, m, -1, i + m); }
    }
    if x.bitlen == 0 { assert x.hi == x.nw; }
    hide Pow2, IsBlock;
  }

  /** Walks the hosts of a block, forwards or backwards. */
  class IpRangeIter {
    const block: Block
    const reverse: bool
    var hostP: nat

    constructor (block: Block, reverse: bool)
      ensures this.block == block && this.reverse == reverse && hostP == 0
    {
      this.block, this.reverse, hostP := block, reverse, 0;
    }

    /** The address yielded at each step, or None once every host has been. */
    method Next() returns (ip: Option<nat>)
      requires IsBlock(block)
      modifies this
      ensures ip == if old(hostP) >= block.hostNo then None
                    else Some(FirstHost(block) + if reverse then block.hostNo - 1 - old(hostP) else old(hostP))
      ensures hostP == if old(hostP) >= block.hostNo then old(hostP) else old(hostP) + 1
    {
      if hostP >= block.hostNo {
        return None;
      }
      var value: nat;
      if !reverse {
        IndexBijection(block, hostP);
        value := GetValue(block, hostP);
      } else {
        IndexBijection(block, block.hostNo - 1 - hostP);
        value := GetValue(block, block.hostNo - 1 - hostP);
      }
      hostP := hostP + 1;
      return Some(value);
    }
  }
}
