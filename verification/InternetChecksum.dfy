/** The one's-complement checksum of RFC 1071 section 1. */
module InternetChecksum {
  import opened Bytes

  predicate Even(n: int) { n % 2 == 0 }

  function Padded(b: bytes): (r: bytes)
    ensures Even(|r|)
  {
    if |b| % 2 == 1 then b + [0] else b
  }

  /** Sum of the big-endian 16-bit words. */
  function WordSum(b: bytes): nat
    requires Even(|b|)
  {
    if b == [] then 0 else WordSum(b[..|b| - 2]) + ToU16(b[|b| - 2..])
  }

  /** A sum with its carries folded back in: 0 only for 0, else congruent modulo 65535. */
  function Folded(n: nat): (r: nat)
    ensures r <= 0xffff && (r == 0 <==> n == 0) && r % 65535 == n % 65535
  {
    if n == 0 then 0 else 1 + (n - 1) % 65535
  }

  function Checksum(data: bytes): (c: int)
    ensures 0 <= c < 0x1_0000
  {
    0xffff - Folded(WordSum(Padded(data)))
  }

  // Fold the carry back in.
  function FoldOnce(total: nat): nat { total % 0x1_0000 + total / 0x1_0000 }

  function WordAt(buf: bytes, i: nat): (w: nat)
    requires i + 2 <= |buf|
    ensures w < 0x1_0000
  {
    (buf[i] as int) * 256 + buf[i + 1]
  }

  lemma FoldStep(sum: nat, w: nat)
    requires w < 0x1_0000
    ensures FoldOnce(Folded(sum) + w) == Folded(sum + w)
  {
    var t := Folded(sum) + w;
    FoldedShift(sum, w);
    hide Folded;
    FoldedSmall(t);
  }

  /** Adding to a folded sum folds to the same. */
  lemma FoldedShift(sum: nat, w: nat)
    ensures Folded(Folded(sum) + w) == Folded(sum + w)
  {
    if sum > 0 {
      var q := (sum - 1) / 65535;
      assert sum == Folded(sum) + 65535 * q;
      ShiftMod(Folded(sum) + w - 1, q);
    }
  }

  lemma ShiftMod(n: nat, q: nat)
    ensures (n + 65535 * q) % 65535 == n % 65535
  {
  }

  /** One fold is enough below 2 * 65536. */
  lemma FoldedSmall(t: nat)
    requires t < 0x2_0000 - 1
    ensures FoldOnce(t) == Folded(t)
  {
  }

  lemma NothingSummed(buf: bytes)
    ensures Even(0) && Folded(WordSum(buf[..0])) == 0
  {
  }

  lemma EvenRoom(i: nat, n: nat)
    requires Even(i) && Even(n) && i < n
    ensures i + 2 <= n && Even(i + 2)
  {
  }

  lemma NextWord(buf: bytes, i: nat)
    requires Even(i) && Even(|buf|) && i + 2 <= |buf|
    ensures WordSum(buf[..i + 2]) == WordSum(buf[..i]) + WordAt(buf, i)
  {
    var next := buf[..i + 2];
    assert next[..i] == buf[..i] && next[i..] == buf[i..i + 2];
  }

  /** The running total never leaves 16 bits, so the fold after the loop has nothing to do. */
  method Checksum16(data: bytes) returns (c: int)
    ensures c == Checksum(data)
  {
    hide Folded, WordSum, Padded, FoldOnce, Even;
    var buf := Padded(data);
    var total := 0;
    var i := 0;
    NothingSummed(buf);
    while i < |buf|
      invariant 0 <= i <= |buf| && Even(i)
      invariant total == Folded(WordSum(buf[..i]))
    {
      EvenRoom(i, |buf|);
      var word := WordAt(buf, i);
      NextWord(buf, i);
      FoldStep(WordSum(buf[..i]), word);
      total := FoldOnce(total + word);
      i := i + 2;
    }
    assert buf[..i] == buf;
    // A second loop folds while anything is left above 16 bits; it never runs.
    assert total <= 0xffff;
    return 0xffff - total;
  }

  /** A buffer verifies exactly when its words sum to a positive multiple of 65535. */
  lemma VerifiesIff(data: bytes)
    ensures Checksum(data) == 0 <==> WordSum(Padded(data)) > 0 && WordSum(Padded(data)) % 65535 == 0
  {
    hide WordSum, Padded;
    FoldedFull(WordSum(Padded(data)));
    hide Folded;
  }

  lemma FoldedFull(n: nat)
    ensures Folded(n) == 0xffff <==> n > 0 && n % 65535 == 0
  {
  }

  lemma {:induction false} WordSumAppend(a: bytes, b: bytes)
    requires |a| % 2 == 0 && |b| % 2 == 0
    ensures WordSum(a + b) == WordSum(a) + WordSum(b)
  {
    if b == [] {
      assert a + b == a;
    } else {
      assert (a + b)[..|a + b| - 2] == a + b[..|b| - 2];
      assert (a + b)[|a + b| - 2..] == b[|b| - 2..];
      WordSumAppend(a, b[..|b| - 2]);
    }
  }

  /** The buffer with the two octets at k replaced by the word w. */
  function Patch(buf: bytes, k: nat, w: int): (r: bytes)
    requires k + 2 <= |buf| && 0 <= w < 0x1_0000
    ensures |r| == |buf|
  {
    buf[..k] + U16(w) + buf[k + 2..]
  }

  lemma PatchedSum(buf: bytes, k: nat, w: int)
    requires k % 2 == 0 && k + 2 <= |buf| && 0 <= w < 0x1_0000
    ensures WordSum(Padded(Patch(buf, k, w))) == WordSum(Padded(buf)) - ToU16(buf[k..k + 2]) + w
  {
    hide WordSum, Padded, U16, ToU16;
    var tail := Padded(buf[k + 2..]);
    SplitSum(buf[..k], buf[k..k + 2], tail);
    SplitSum(buf[..k], U16(w), tail);
    PaddedParts(buf, k, buf[k..k + 2]);
    PaddedParts(buf, k, U16(w));
    assert buf[..k] + buf[k..k + 2] + buf[k + 2..] == buf;
  }

  lemma PaddedParts(buf: bytes, k: nat, word: bytes)
    requires k % 2 == 0 && k + 2 <= |buf| && |word| == 2
    ensures Padded(buf[..k] + word + buf[k + 2..]) == buf[..k] + word + Padded(buf[k + 2..])
  {
    var b := buf[..k] + word + buf[k + 2..];
    assert |b| == |buf| && |buf[k + 2..]| % 2 == |buf| % 2;
  }

  lemma SplitSum(head: bytes, word: bytes, tail: bytes)
    requires |head| % 2 == 0 && |word| == 2 && |tail| % 2 == 0
    ensures WordSum(head + word + tail) == WordSum(head) + ToU16(word) + WordSum(tail)
  {
    WordSumAppend(head + word, tail);
    WordSumAppend(head, word);
    assert word[..0] == [] && word[0..] == word;
  }

  /** The checksum of a buffer whose checksum word is zero makes the buffer verify once
      it is put into that word, whatever the contents and for odd lengths too. */
  lemma PatchedVerifies(buf: bytes, k: nat)
    requires k % 2 == 0 && k + 2 <= |buf| && buf[k] == 0 && buf[k + 1] == 0
    ensures Checksum(Patch(buf, k, Checksum(buf))) == 0
  {
    hide WordSum, Padded, Patch, Folded;
    PatchedSum(buf, k, Checksum(buf));
    Completed(WordSum(Padded(buf)));
    VerifiesIff(Patch(buf, k, Checksum(buf)));
  }

  lemma Completed(n: nat)
    ensures n + 0xffff - Folded(n) > 0 && (n + 0xffff - Folded(n)) % 65535 == 0
  {
    if n > 0 {
      assert n + 0xffff - Folded(n) == 65535 * ((n - 1) / 65535 + 1);
    }
  }

  /** One changed word is detected exactly when it differs modulo 65535, or when nothing but zeros is left. */
  lemma ChangeDetected(data: bytes, k: nat, w: int)
    requires Checksum(data) == 0 && k % 2 == 0 && k + 2 <= |data| && 0 <= w < 0x1_0000
    ensures Checksum(Patch(data, k, w)) != 0
       <==> w % 65535 != ToU16(data[k..k + 2]) % 65535 || WordSum(Padded(Patch(data, k, w))) == 0
  {
    hide WordSum, Padded, Patch, Folded, Checksum, ToU16;
    PatchedSum(data, k, w);
    VerifiesIff(data);
    VerifiesIff(Patch(data, k, w));
    Shifted(WordSum(Padded(data)), ToU16(data[k..k + 2]), w);
  }

  lemma Shifted(n: nat, v: nat, w: nat)
    requires n % 65535 == 0 && v <= n
    ensures (n - v + w) % 65535 == 0 <==> w % 65535 == v % 65535
  {
    var q := n / 65535;
    assert n == 65535 * q;
    var d := (w as int) - v;
    assert d == 65535 * (w / 65535 - v / 65535) + w % 65535 - v % 65535;
  }
}
