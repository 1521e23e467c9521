/** The option list of a TCP header (RFC 9293 section 3.1), as it is laid out and as it is read. */
module TcpOptions {
  import opened Bytes
  import opened Segment

  /** A NOP, or an option with a length octet that counts its two octets of header. */
  datatype Opt = Nop | Opt(kind: byte, data: bytes)

  predicate Sound(o: Opt) { o.Opt? ==> o.kind !in {0, 1} && |o.data| <= 253 }

  function OptBytes(o: Opt): bytes
    requires Sound(o)
  {
    match o
    case Nop => [1]
    case Opt(kind, data) => [kind, |data| + 2] + data
  }

  function ListBytes(opts: seq<Opt>): bytes
    requires forall o :: o in opts ==> Sound(o)
  {
    if opts == [] then [] else OptBytes(opts[0]) + ListBytes(opts[1..])
  }

  function Entry(o: Opt): (int, bytes) {
    match o
    case Nop => (1, [])
    case Opt(kind, data) => (kind as int, data)
  }

  function Entries(opts: seq<Opt>): OptionList {
    if opts == [] then [] else [Entry(opts[0])] + Entries(opts[1..])
  }

  /** Nothing more is read here: the end of the buffer, an option without a whole header, one
      shorter than its header, or one that does not fit. */
  predicate CutShort(tail: bytes) {
    tail == [] || (tail[0] !in {0, 1} && (|tail| < 2 || tail[1] < 2 || tail[1] as int > |tail|))
  }

  /** These octets stand at i. */
  predicate Holds(b: bytes, i: nat, w: bytes) { i + |w| <= |b| && b[i..i + |w|] == w }

  lemma OneRead(b: bytes, i: nat, o: Opt)
    requires Sound(o) && Holds(b, i, OptBytes(o))
    ensures OptionsFrom(b, i) == [Entry(o)] + OptionsFrom(b, i + |OptBytes(o)|)
  {
    var w := OptBytes(o);
    assert b[i] == w[0];
    if o.Opt? {
      assert b[i + 1] == w[1];
      assert b[i + 2..i + |w|] == w[2..] == o.data;
    }
  }

  lemma HoldsBoth(b: bytes, i: nat, u: bytes, v: bytes)
    ensures Holds(b, i, u + v) <==> Holds(b, i, u) && Holds(b, i + |u|, v)
  {
    if i + |u + v| <= |b| {
      var w := b[i..i + |u + v|];
      assert w[..|u|] == b[i..i + |u|] && w[|u|..] == b[i + |u|..i + |u| + |v|];
      assert w == w[..|u|] + w[|u|..];
    }
  }

  /** Every sound list of options is read in order wherever it stands, and reading goes on with
      what follows it. */
  lemma {:induction false} ListRead(b: bytes, i: nat, opts: seq<Opt>)
    requires (forall o :: o in opts ==> Sound(o)) && Holds(b, i, ListBytes(opts))
    ensures OptionsFrom(b, i) == Entries(opts) + OptionsFrom(b, i + |ListBytes(opts)|)
    decreases |opts|
  {
    if opts == [] {
      NoMore(OptionsFrom(b, i));
      assert ListBytes(opts) == [] && Entries(opts) == [];
    } else {
      Unfolded(opts);
      HoldsBoth(b, i, OptBytes(opts[0]), ListBytes(opts[1..]));
      ListRead(b, i + |OptBytes(opts[0])|, opts[1..]);
      FirstAndRest(b, i, OptBytes(opts[0]), opts[0], ListBytes(opts[1..]), Entries(opts[1..]));
      hide OptBytes, ListBytes, Entries, OptionsFrom, Entry, Holds;
    }
  }

  lemma FirstAndRest(b: bytes, i: nat, first: bytes, o: Opt, rest: bytes, entries: OptionList)
    requires Sound(o) && first == OptBytes(o) && Holds(b, i, first) && i + |first| + |rest| <= |b|
    requires OptionsFrom(b, i + |first|) == entries + OptionsFrom(b, i + |first| + |rest|)
    ensures OptionsFrom(b, i) == [Entry(o)] + entries + OptionsFrom(b, i + |first| + |rest|)
  {
    OneRead(b, i, o);
    Regrouped([Entry(o)], entries, OptionsFrom(b, i + |first| + |rest|));
    hide OptionsFrom, OptBytes, Entry, Holds;
  }

  lemma Unfolded(opts: seq<Opt>)
    requires opts != [] && forall o :: o in opts ==> Sound(o)
    ensures Sound(opts[0]) && forall o :: o in opts[1..] ==> Sound(o)
    ensures ListBytes(opts) == OptBytes(opts[0]) + ListBytes(opts[1..])
    ensures Entries(opts) == [Entry(opts[0])] + Entries(opts[1..])
  {
    hide OptBytes, Entry;
  }

  lemma NoMore(a: OptionList)
    ensures [] + a == a && a + [] == a
  {
  }

  lemma Regrouped(a: OptionList, b: OptionList, c: OptionList)
    ensures a + (b + c) == a + b + c
  {
  }

  /** So the parser returns the options that are whole, up to the end of the list or the first one
      cut short; an end-of-list octet is reported and hides what follows. */
  lemma OptionsRead(opts: seq<Opt>, tail: bytes)
    requires forall o :: o in opts ==> Sound(o)
    ensures CutShort(tail) ==> OptionsFrom(ListBytes(opts) + tail, 0) == Entries(opts)
    ensures OptionsFrom(ListBytes(opts) + ([0] + tail), 0) == Entries(opts) + [(0, [])]
  {
    var w := ListBytes(opts);
    HeadHolds(w, tail);
    HeadHolds(w, [0] + tail);
    ListRead(w + tail, 0, opts);
    ListRead(w + ([0] + tail), 0, opts);
    TailRead(w, tail);
    NoMore(Entries(opts));
    hide OptionsFrom, CutShort, Entries, ListBytes, Holds;
  }

  lemma HeadHolds(w: bytes, tail: bytes)
    ensures Holds(w + tail, 0, w)
  {
  }

  lemma TailRead(before: bytes, tail: bytes)
    ensures CutShort(tail) ==> OptionsFrom(before + tail, |before|) == []
    ensures OptionsFrom(before + ([0] + tail), |before|) == [(0, [])]
  {
    var b, i := before + tail, |before|;
    if tail != [] {
      assert b[i] == tail[0];
      if |tail| > 1 { assert b[i + 1] == tail[1]; }
    }
    assert (before + ([0] + tail))[i] == 0;
  }

  /** The first option of a kind is the one found. */
  lemma {:induction false} FirstFound(opts: OptionList, kind: int)
    ensures GetOption(opts, kind) == None <==> forall i :: 0 <= i < |opts| ==> opts[i].0 != kind
    ensures forall i :: 0 <= i < |opts| && opts[i].0 == kind && (forall j :: 0 <= j < i ==> opts[j].0 != kind) ==>
              GetOption(opts, kind) == Some(opts[i].1)
  {
    if opts != [] {
      var rest := opts[1..];
      FirstFound(rest, kind);
      assert forall i :: 1 <= i < |opts| ==> opts[i] == rest[i - 1];
      forall i | 0 <= i < |opts| && opts[i].0 == kind && (forall j :: 0 <= j < i ==> opts[j].0 != kind)
        ensures GetOption(opts, kind) == Some(opts[i].1)
      {
        if i > 0 {
          assert opts[0].0 != kind;
          assert forall j :: 0 <= j < i - 1 ==> rest[j] == opts[j + 1];
        }
      }
      if opts[0].0 != kind && GetOption(rest, kind) == None {
        forall i | 0 <= i < |opts| ensures opts[i].0 != kind { if i > 0 { assert rest[i - 1].0 != kind; } }
      }
    }
  }
}
