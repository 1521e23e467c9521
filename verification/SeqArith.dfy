/** Sequence-number arithmetic, 32-bit and unbounded (RFC 9293 section 3.4).

    The connection computes modulo 2^32.  Every operation of the model takes the
    arithmetic as a parameter, so that the same code also runs on unbounded
    integers; the unbounded machine is the reference the 32-bit one refines. */
module SeqArith {
  const M32 := 0x1_0000_0000

  datatype Arith = Mod32 | Unbounded

  function Norm(m: Arith, x: nat): (r: nat)
    ensures m == Mod32 ==> r < M32
  {
    if m == Mod32 then x % 0x1_0000_0000 else x
  }

  /** Is seq in [start, end) after wrap? */
  predicate SeqInWindow(m: Arith, seqNo: int, start: int, end: int) {
    if m == Mod32 then (seqNo - start) % 0x1_0000_0000 < (end - start) % 0x1_0000_0000 else start <= seqNo < end
  }

  lemma ModOffset(x: int, y: int)
    requires 0 <= x - y < M32
    ensures (x % 0x1_0000_0000 - y % 0x1_0000_0000) % 0x1_0000_0000 == x - y
  {
    assert x % 0x1_0000_0000 - y % 0x1_0000_0000 == (x - y) - M32 * (x / M32 - y / M32);
  }

  lemma ModNegOffset(x: int, y: int)
    requires -M32 <= x - y < 0
    ensures (x % 0x1_0000_0000 - y % 0x1_0000_0000) % 0x1_0000_0000 == x - y + M32
  {
    assert x % 0x1_0000_0000 - y % 0x1_0000_0000 == (x - y + M32) - M32 * (x / M32 - y / M32 + 1);
  }

  /** Two numbers less than 2^32 apart are equal exactly when their low 32 bits are. */
  lemma NormEqual(x: nat, y: nat)
    requires -M32 < x - y < M32
    ensures Norm(Mod32, x) == Norm(Mod32, y) <==> x == y
  {
    if x >= y { ModOffset(x, y); } else { ModOffset(y, x); }
  }

  lemma NormStep(x: nat, n: nat)
    ensures Norm(Mod32, Norm(Mod32, x) + n) == Norm(Mod32, x + n)
  {
    assert x % 0x1_0000_0000 + n == (x + n) - M32 * (x / M32);
  }

  lemma NormBack(x: nat, n: nat)
    requires n <= x
    ensures (Norm(Mod32, x) - n) % 0x1_0000_0000 == Norm(Mod32, x - n)
  {
    assert x % 0x1_0000_0000 - n == (x - n) - M32 * (x / M32);
  }

  /** The 32-bit window test decides the integer comparison it stands for: the
      window is shorter than 2^32 and the number lies less than 2^32 minus
      the window's size below it. */
  lemma WindowExact(seqNo: nat, start: nat, end: nat)
    requires start <= end < start + M32
    requires end - M32 <= seqNo < start + M32
    ensures SeqInWindow(Mod32, Norm(Mod32, seqNo), Norm(Mod32, start), Norm(Mod32, end))
            <==> SeqInWindow(Unbounded, seqNo, start, end)
  {
    ModOffset(end, start);
    if seqNo >= start { ModOffset(seqNo, start); } else { ModNegOffset(seqNo, start); }
  }
}
