/** The TCP segment, its flags and its option list (RFC 9293 section 3.1). */
module Segment {
  import opened Bytes

  const OPT_EOL := 0
  const OPT_NOP := 1
  const OPT_MSS := 2

  /** The flags octet, one field a bit, least significant first. */
  datatype Flags = Flags(fin: bool, syn: bool, rst: bool, psh: bool,
                         ack: bool, urg: bool, ece: bool, cwr: bool)

  const NO_FLAGS := Flags(false, false, false, false, false, false, false, false)
  const SYN := NO_FLAGS.(syn := true)
  const SYN_ACK := SYN.(ack := true)
  const ACK := NO_FLAGS.(ack := true)
  const ACK_PSH := ACK.(psh := true)
  const FIN_ACK := ACK.(fin := true)

  /** Sequence numbers are integers here: 32-bit ones on the wire and in the
      connection, unbounded ones in the reference machine. */
  datatype TcpSegment = TcpSegment(srcPort: nat, dstPort: nat, seqNo: nat, ackNo: nat, flags: Flags,
                                   window: nat, options: bytes, payload: bytes, urgent: nat)
  {
    /** SYN and FIN each take one sequence number. */
    function SegmentLength(): nat {
      |payload| + (if flags.syn then 1 else 0) + (if flags.fin then 1 else 0)
    }
  }

  type OptionList = seq<(int, bytes)>

  function BuildMssOption(mss: nat): (r: bytes) {
    [OPT_MSS, 4] + U16(mss % 0x1_0000)
  }

  function PadOptions(options: bytes): (r: bytes)
    ensures |r| % 4 == 0 && |options| <= |r| < |options| + 4
    ensures r[..|options|] == options
    ensures forall i :: |options| <= i < |r| ==> r[i] == OPT_NOP
  {
    options + seq((4 - |options| % 4) % 4, _ => OPT_NOP)
  }

  /** The entries parsed from index i on; parsing stops at EOL and at the first malformed option. */
  function OptionsFrom(buf: bytes, i: nat): (r: OptionList)
    requires i <= |buf|
    decreases |buf| - i
  {
    if i == |buf| then []
    else if buf[i] == OPT_EOL then [(OPT_EOL, [])]
    else if buf[i] == OPT_NOP then [(OPT_NOP, [])] + OptionsFrom(buf, i + 1)
    else if i + 1 >= |buf| || buf[i + 1] < 2 || i + buf[i + 1] > |buf| then []
    else [(buf[i] as int, buf[i + 2..i + buf[i + 1]])] + OptionsFrom(buf, i + buf[i + 1])
  }

  method ParseOptions(buf: bytes) returns (out: OptionList)
    ensures out == OptionsFrom(buf, 0)
  {
    out := [];
    var i := 0;
    hide OptionsFrom;
    OptionsEnd(buf);
    assert out + OptionsFrom(buf, 0) == OptionsFrom(buf, 0);
    while i < |buf|
      invariant i <= |buf|
      invariant out + OptionsFrom(buf, i) == OptionsFrom(buf, 0)
    {
      OptionsStep(out, buf, i);
      var kind := buf[i];
      if kind == OPT_EOL {
        out := out + [(OPT_EOL, [])];
        return;
      }
      if kind == OPT_NOP {
        out := out + [(OPT_NOP, [])];
        i := i + 1;
        continue;
      }
      if i + 1 >= |buf| {
        return;
      }
      var length := buf[i + 1];
      if length < 2 || i + length > |buf| {
        return;
      }
      out := out + [(kind as int, buf[i + 2..i + length])];
      i := i + length;
    }
    assert out + [] == out;
  }

  lemma OptionsEnd(buf: bytes)
    ensures OptionsFrom(buf, |buf|) == []
  {
  }

  /** What one turn of the loop adds, and where it goes on. */
  lemma OptionsStep(out: OptionList, buf: bytes, i: nat)
    requires i < |buf|
    ensures var all := out + OptionsFrom(buf, i);
            if buf[i] == OPT_EOL then all == out + [(OPT_EOL, [])]
            else if buf[i] == OPT_NOP then all == out + [(OPT_NOP, [])] + OptionsFrom(buf, i + 1)
            else if i + 1 >= |buf| || buf[i + 1] < 2 || i + buf[i + 1] > |buf| then all == out
            else all == out + [(buf[i] as int, buf[i + 2..i + buf[i + 1]])] + OptionsFrom(buf, i + buf[i + 1])
  {
    assert out + [] == out;
    if buf[i] == OPT_NOP {
      AppendOne(out, (OPT_NOP, []), OptionsFrom(buf, i + 1));
    } else if buf[i] != OPT_EOL && i + 1 < |buf| && buf[i + 1] >= 2 && i + buf[i + 1] <= |buf| {
      AppendOne(out, (buf[i] as int, buf[i + 2..i + buf[i + 1]]), OptionsFrom(buf, i + buf[i + 1]));
    }
  }

  lemma AppendOne(a: OptionList, e: (int, bytes), b: OptionList)
    ensures a + ([e] + b) == a + [e] + b
  {
  }

  /** First option of the kind, or None. */
  function GetOption(opts: OptionList, kind: int): (r: Option<bytes>) {
    if opts == [] then None
    else if opts[0].0 == kind then Some(opts[0].1)
    else GetOption(opts[1..], kind)
  }

  /** The MSS a SYN advertises survives encoding, NOP padding and parsing. */
  lemma MssOptionParses(mss: nat)
    ensures GetOption(OptionsFrom(BuildMssOption(mss), 0), OPT_MSS) == Some(U16(mss % 0x1_0000))
    ensures PadOptions(BuildMssOption(mss)) == BuildMssOption(mss)
  {
    var b := BuildMssOption(mss);
    assert |b| == 4 && b[0] == OPT_MSS && b[1] == 4;
    assert b[2..4] == U16(mss % 0x1_0000);
    assert OptionsFrom(b, 4) == [];
    assert OptionsFrom(b, 0)[0] == (OPT_MSS, U16(mss % 0x1_0000));
  }
}
