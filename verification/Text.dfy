/** Splitting, joining and decimal numbers, as the printer and parser of node addresses use them. */
module Text {
  import opened Bytes

  predicate Free(s: string, c: char) { c !in s }

  /** s.split(c): always at least one part. */
  function Split(s: string, c: char): (r: seq<string>)
    ensures r != []
  {
    if s == [] then [[]]
    else
      var rest := Split(s[1..], c);
      if s[0] == c then [[]] + rest else [[s[0]] + rest[0]] + rest[1..]
  }

  /** c.join(parts) */
  function Join(parts: seq<string>, c: char): string {
    if parts == [] then [] else if |parts| == 1 then parts[0] else parts[0] + [c] + Join(parts[1..], c)
  }

  lemma {:induction false} SplitAt(head: string, rest: string, c: char)
    requires Free(head, c)
    ensures Split(head, c) == [head]
    ensures Split(head + [c] + rest, c) == [head] + Split(rest, c)
  {
    var s := head + [c] + rest;
    if head == [] {
      assert s[1..] == rest;
    } else {
      assert s[1..] == head[1..] + [c] + rest;
      SplitAt(head[1..], rest, c);
      assert [head[0]] + head[1..] == head;
    }
  }

  lemma {:induction false} SplitJoin(parts: seq<string>, c: char)
    requires parts != [] && forall p :: p in parts ==> Free(p, c)
    ensures Split(Join(parts, c), c) == parts
  {
    if |parts| == 1 {
      SplitAt(parts[0], [], c);
    } else {
      SplitJoin(parts[1..], c);
      SplitAt(parts[0], Join(parts[1..], c), c);
    }
  }

  /** The parts of two texts joined are the parts of each. */
  lemma {:induction false} SplitMore(s: string, t: string, c: char)
    ensures Split(s + [c] + t, c) == Split(s, c) + Split(t, c)
  {
    var u := s + [c] + t;
    if s == [] {
      assert u[1..] == t;
    } else {
      assert u[1..] == s[1..] + [c] + t;
      SplitMore(s[1..], t, c);
    }
  }

  lemma {:induction false} JoinFree(parts: seq<string>, c: char, d: char)
    requires c != d && forall p :: p in parts ==> Free(p, d)
    ensures Free(Join(parts, c), d)
  {
    if parts != [] { assert parts[0] in parts; }
    if |parts| > 1 { JoinFree(parts[1..], c, d); }
  }

  // --- Numbers --------------------------------------------------------------------------

  function Digit(n: nat): char
    requires n < 10
  {
    '0' + n as char
  }

  predicate IsDigit(c: char) { '0' <= c <= '9' }

  function DigitValue(c: char): nat
    requires IsDigit(c)
  {
    (c - '0') as nat
  }

  /** %d of a number that is not negative. */
  function Dec(n: nat): (r: string)
    ensures r != []
    ensures forall c :: c in r ==> IsDigit(c)
  {
    if n < 10 then [Digit(n)] else Dec(n / 10) + [Digit(n % 10)]
  }

  predicate IsNumber(s: string) { s != [] && forall c :: c in s ==> IsDigit(c) }

  function ToNat(s: string): nat
    requires forall c :: c in s ==> IsDigit(c)
  {
    if s == [] then 0 else 10 * ToNat(s[..|s| - 1]) + DigitValue(s[|s| - 1])
  }

  lemma {:induction false} DecRoundTrip(n: nat)
    ensures IsNumber(Dec(n)) && ToNat(Dec(n)) == n
  {
    if n < 10 {
      assert [Digit(n)][..0] == [];
    } else {
      DecRoundTrip(n / 10);
      assert (Dec(n / 10) + [Digit(n % 10)])[..|Dec(n / 10)|] == Dec(n / 10);
    }
  }

  /** Decimal digits, the most significant first. */
  lemma DecDigits(q: nat, d: nat)
    requires d < 10
    ensures Dec(d) == [('0' as int + d) as char]
    ensures q > 0 ==> Dec(10 * q + d) == Dec(q) + [('0' as int + d) as char]
  {
  }

  function Signed(n: int): (r: string)
    ensures r != []
  {
    if n < 0 then ['-'] + Dec(-n) else Dec(n)
  }

  /** int(s, 10): a sign and digits. */
  function ToInt(s: string): Option<int> {
    if IsNumber(s) then Some(ToNat(s))
    else if s != [] && s[0] in {'+', '-'} && IsNumber(s[1..]) then
      Some(if s[0] == '-' then -(ToNat(s[1..]) as int) else ToNat(s[1..]))
    else None
  }

  /** A whole number is digits, with a sign or without, and nothing else is one. */
  lemma IntReads(s: string)
    ensures IsNumber(s) ==>
              ToInt(s) == Some(ToNat(s)) && ToInt(['+'] + s) == Some(ToNat(s)) && ToInt(['-'] + s) == Some(-(ToNat(s) as int))
    ensures ToInt(s) == None <==> !IsNumber(s) && (s == [] || (s[0] != '+' && s[0] != '-') || !IsNumber(s[1..]))
  {
    assert (['+'] + s)[1..] == s && (['-'] + s)[1..] == s;
    assert (['+'] + s)[0] == '+' && (['+'] + s)[0] in ['+'] + s;
    assert (['-'] + s)[0] == '-' && (['-'] + s)[0] in ['-'] + s;
  }

  lemma SignedRoundTrip(n: int)
    ensures ToInt(Signed(n)) == Some(n)
    ensures n < 0 ==> !IsNumber(Signed(n))
    ensures forall c :: c in Signed(n) ==> IsDigit(c) || c == '-'
  {
    DecRoundTrip(if n < 0 then -n else n);
    var s := Signed(n);
    if n < 0 {
      assert s[0] == '-' && s[0] in s && s[1..] == Dec(-n);
    }
  }
}
