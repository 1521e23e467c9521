/** Node addresses: the printed list of a node's interfaces, keys, server hints and OS. */
module NodeAddr {
  import opened Bytes
  import opened Text

  /** One interface, as it is announced. */
  datatype Record = Record(netifaceIndex: nat, ifIndex: nat, ext: string, nic: string, extPort: nat,
                           natType: nat, deltaType: nat, deltaValue: int, nicSubnet: nat, nicPort: nat)

  /** One interface, as it is understood; old addresses carry no subnet. */
  datatype Info = Info(netifaceIndex: nat, ifIndex: nat, ext: string, nic: string, port: nat,
                       natType: nat, deltaType: nat, deltaValue: nat, nicSubnet: Option<nat>, nicPort: nat)

  datatype Hint = Hint(af: int, host: string, port: int)

  datatype Node = Node(v4: map<nat, Info>, v6: map<nat, Info>, pubKey: string, machineId: string,
                       mqttBrokers: seq<Hint>, turnServers: seq<Hint>, os: Option<string>)

  // --- Server hints ------------------------------------------------------------------------

  function HintFields(h: Hint): seq<string> { [Signed(h.af), h.host, Signed(h.port)] }

  function Bracketed(fields: seq<string>): string { ['['] + Join(fields, ',') + [']'] }

  predicate Useful(h: Hint) { h.host != [] && h.port != 0 }

  function Useable(hints: seq<Hint>): seq<Hint> {
    if hints == [] then []
    else
      var last := hints[|hints| - 1];
      Useable(hints[..|hints| - 1]) + if Useful(last) then [last] else []
  }

  /** Every hint with a host and a port is kept, in order, and no other. */
  lemma {:induction false} UseableMeans(hints: seq<Hint>, more: seq<Hint>)
    ensures (forall h :: h in hints ==> h.host != [] && h.port != 0) ==> Useable(hints) == hints
    ensures (forall h :: h in hints ==> h.host == [] || h.port == 0) ==> Useable(hints) == []
    ensures Useable(hints + more) == Useable(hints) + Useable(more)
  {
    UseableAll(hints);
    UseableJoined(hints, more);
    hide *;
  }

  lemma {:induction false} UseableAll(hints: seq<Hint>)
    ensures (forall h :: h in hints ==> h.host != [] && h.port != 0) ==> Useable(hints) == hints
    ensures (forall h :: h in hints ==> h.host == [] || h.port == 0) ==> Useable(hints) == []
  {
    if hints != [] {
      UseableAll(hints[..|hints| - 1]);
      assert hints == hints[..|hints| - 1] + [hints[|hints| - 1]];
    }
  }

  lemma {:induction false} UseableJoined(hints: seq<Hint>, more: seq<Hint>)
    ensures Useable(hints + more) == Useable(hints) + Useable(more)
  {
    if more == [] {
      assert hints + more == hints;
    } else {
      assert (hints + more)[..|hints + more| - 1] == hints + more[..|more| - 1];
      UseableJoined(hints, more[..|more| - 1]);
    }
  }

  function HintEntries(hints: seq<Hint>): (r: seq<string>)
    ensures |r| == |hints|
  {
    seq(|hints|, i requires 0 <= i < |hints| => Bracketed(HintFields(hints[i])))
  }

  function EncodeHints(hints: seq<Hint>): string {
    if Useable(hints) == [] then "0" else Join(HintEntries(Useable(hints)), '|')
  }

  method EncodeServerHints(hints: seq<Hint>) returns (buf: string)
    ensures buf == EncodeHints(hints)
  {
    var parts: seq<string> := [];
    for i := 0 to |hints|
      invariant parts == HintEntries(Useable(hints[..i]))
    {
      assert hints[..i + 1][..i] == hints[..i];
      if hints[i].host == [] || hints[i].port == 0 {
        continue;
      }
      parts := parts + [Bracketed(HintFields(hints[i]))];
    }
    assert hints[..|hints|] == hints;
    if parts == [] {
      return "0";
    }
    return Join(parts, '|');
  }

  function ParseHint(entry: string): Option<Hint> {
    if |entry| < 2 then None
    else
      var inner := if entry[0] == '[' && entry[|entry| - 1] == ']' then entry[1..|entry| - 1] else entry;
      var parts := Split(inner, ',');
      if |parts| != 3 then None
      else
        match (ToInt(parts[0]), ToInt(parts[2]))
        case (Some(af), Some(port)) => if parts[1] == [] || port == 0 then None else Some(Hint(af, parts[1], port))
        case _ => None
  }

  function HintsOf(entries: seq<string>): seq<Hint> {
    if entries == [] then []
    else
      var before := HintsOf(entries[..|entries| - 1]);
      match ParseHint(entries[|entries| - 1]) case Some(h) => before + [h] case None => before
  }

  function ParseHints(buf: string): seq<Hint> {
    if buf == "" || buf == "0" then [] else HintsOf(Split(buf, '|'))
  }

  method ParseServerHints(buf: string) returns (out: seq<Hint>)
    ensures out == ParseHints(buf)
  {
    out := [];
    if buf == "" || buf == "0" {
      return;
    }
    var entries := Split(buf, '|');
    for i := 0 to |entries|
      invariant out == HintsOf(entries[..i])
    {
      assert entries[..i + 1][..i] == entries[..i];
      var h := ParseHint(entries[i]);
      if h.Some? {
        out := out + [h.value];
      }
    }
    assert entries[..|entries|] == entries;
  }

  predicate Plain(s: string) { Free(s, ',') && Free(s, '|') && Free(s, '^') }

  lemma BracketedParts(fields: seq<string>)
    requires fields != [] && forall f :: f in fields ==> Plain(f)
    ensures var e := Bracketed(fields);
            && |e| >= 2 && e[0] == '[' && e[|e| - 1] == ']' && Split(e[1..|e| - 1], ',') == fields
            && Free(e, '|') && Free(e, '^')
  {
    var e := Bracketed(fields);
    assert e[1..|e| - 1] == Join(fields, ',');
    SplitJoin(fields, ',');
    JoinFree(fields, ',', '|');
    JoinFree(fields, ',', '^');
  }

  lemma HintParses(h: Hint)
    requires Plain(h.host) && Useful(h)
    ensures var e := Bracketed(HintFields(h)); ParseHint(e) == Some(h) && Free(e, '|') && Free(e, '^') && |e| >= 2
  {
    SignedRoundTrip(h.af);
    SignedRoundTrip(h.port);
    BracketedParts(HintFields(h));
    hide Bracketed, Signed, ToInt;
  }

  /** Any entry of comma-free fields, with or without its brackets: a hint exactly when there are three,
      the outer two are whole numbers, and neither host nor port is missing. */
  lemma HintReads(fields: seq<string>)
    requires fields != [] && forall f :: f in fields ==> Free(f, ',')
    ensures ParseHint(Bracketed(fields))
         == if |fields| == 3 && ToInt(fields[0]).Some? && ToInt(fields[2]).Some? && fields[1] != [] && ToInt(fields[2]).value != 0
            then Some(Hint(ToInt(fields[0]).value, fields[1], ToInt(fields[2]).value))
            else None
  {
    var e := Bracketed(fields);
    assert e[1..|e| - 1] == Join(fields, ',');
    SplitJoin(fields, ',');
    hide Join, Split, ToInt;
  }

  lemma HintEntriesSnoc(hints: seq<Hint>)
    requires hints != []
    ensures var last := |hints| - 1;
            HintEntries(hints) == HintEntries(hints[..last]) + [Bracketed(HintFields(hints[last]))]
  {
    hide Bracketed, HintFields;
  }

  lemma HintsSnoc(entries: seq<string>, entry: string)
    ensures HintsOf(entries + [entry]) == HintsOf(entries) + if ParseHint(entry) == None then [] else [ParseHint(entry).value]
  {
    assert (entries + [entry])[..|entries|] == entries;
    hide ParseHint;
  }

  lemma HintEntriesFree(hints: seq<Hint>)
    requires forall h :: h in hints ==> Plain(h.host) && Useful(h)
    ensures forall e :: e in HintEntries(hints) ==> Free(e, '|') && Free(e, '^') && |e| >= 2
  {
    forall i | 0 <= i < |hints|
      ensures var e := HintEntries(hints)[i]; Free(e, '|') && Free(e, '^') && |e| >= 2
    {
      HintParses(hints[i]);
    }
    hide Bracketed, HintFields, Plain, Useful, ParseHint;
  }

  lemma {:induction false} HintsParse(hints: seq<Hint>)
    requires forall h :: h in hints ==> Plain(h.host) && Useful(h)
    ensures HintsOf(HintEntries(hints)) == hints
  {
    if hints != [] {
      var last := |hints| - 1;
      HintsParse(hints[..last]);
      HintParses(hints[last]);
      HintEntriesSnoc(hints);
      hide Bracketed, ParseHint, HintFields, HintEntries;
      HintsSnoc(HintEntries(hints[..last]), Bracketed(HintFields(hints[last])));
      assert hints == hints[..last] + [hints[last]];
      hide HintsOf;
    }
  }

  lemma {:induction false} UseableAre(hints: seq<Hint>)
    ensures forall h :: h in Useable(hints) ==> h in hints && Useful(h)
  {
    if hints != [] { UseableAre(hints[..|hints| - 1]); }
  }

  /** Hints come back in order, without those that name no host or no port. */
  lemma HintsRoundTrip(hints: seq<Hint>)
    requires forall h :: h in hints ==> Plain(h.host)
    ensures ParseHints(EncodeHints(hints)) == Useable(hints) && Free(EncodeHints(hints), '^')
  {
    UseableAre(hints);
    var kept := Useable(hints);
    if kept != [] {
      HintsParse(kept);
      HintEntriesFree(kept);
      SplitJoin(HintEntries(kept), '|');
      JoinFree(HintEntries(kept), '|', '^');
      JoinLength(HintEntries(kept));
    }
    hide HintEntries, HintsOf;
  }

  lemma JoinLength(parts: seq<string>)
    requires parts != [] && |parts[0]| >= 2
    ensures |Join(parts, '|')| >= 2
  {
  }

  // --- Interfaces ------------------------------------------------------------------------------

  function Fields(r: Record): seq<string> {
    [Dec(r.netifaceIndex), Dec(r.ifIndex), r.ext, r.nic, Dec(r.extPort), Dec(r.natType), Dec(r.deltaType),
     Signed(r.deltaValue), Dec(r.nicSubnet), Dec(r.nicPort)]
  }

  function RecordEntries(records: seq<Record>): (r: seq<string>)
    ensures |r| == |records|
  {
    seq(|records|, i requires 0 <= i < |records| => Bracketed(Fields(records[i])))
  }

  function Section(records: seq<Record>): string {
    if records == [] then "0" else Join(RecordEntries(records), '|')
  }

  const OPEN_INTERNET := 1
  const RESTRICT_PORT_NAT := 5
  const BLOCKED_NAT := 7
  const NA_DELTA := 1
  const RANDOM_DELTA := 6
  const MAX_PORT := 65535

  // A NAT type of 0 reads as the default one.
  function NatType(n: nat): nat { if n == 0 then RESTRICT_PORT_NAT else n }

  predicate NumbersOk(parts: seq<string>)
    requires 8 <= |parts| <= 10
  {
    && IsNumber(parts[0]) && IsNumber(parts[1]) && IsNumber(parts[4]) && IsNumber(parts[5]) && IsNumber(parts[6])
    && IsNumber(parts[7])
    && (|parts| >= 9 ==> IsNumber(parts[8])) && (|parts| == 10 ==> IsNumber(parts[9]))
  }

  /** One entry, in its 8-, 9- or 10-field shape; valid tells which texts are IP addresses. */
  function ParseEntry(valid: string -> bool, entry: string): Option<Info> {
    if |entry| < 2 then None
    else
      var parts := Split(entry[1..|entry| - 1], ',');
      if !(8 <= |parts| <= 10) || !NumbersOk(parts) || !valid(parts[2]) || !valid(parts[3]) then None
      else
        Some(Info(ToNat(parts[0]), ToNat(parts[1]), parts[2], parts[3], ToNat(parts[4]),
                  NatType(ToNat(parts[5])), ToNat(parts[6]), ToNat(parts[7]),
                  if |parts| >= 9 then Some(ToNat(parts[8])) else None,
                  if |parts| == 10 then ToNat(parts[9]) else ToNat(parts[4])))
  }

  /** The entries by interface index; a later entry replaces an earlier one of the same index. */
  function InfosOf(valid: string -> bool, entries: seq<string>): map<nat, Info> {
    if entries == [] then map[]
    else
      var before := InfosOf(valid, entries[..|entries| - 1]);
      match ParseEntry(valid, entries[|entries| - 1]) case Some(i) => before[i.ifIndex := i] case None => before
  }

  function ParseSection(valid: string -> bool, section: string): map<nat, Info> {
    InfosOf(valid, Split(section, '|'))
  }

  method ParseInterfaces(valid: string -> bool, section: string) returns (out: map<nat, Info>)
    ensures out == ParseSection(valid, section)
  {
    var entries := Split(section, '|');
    out := map[];
    for k := 0 to |entries|
      invariant out == InfosOf(valid, entries[..k])
    {
      assert entries[..k + 1][..k] == entries[..k];
      var entry := entries[k];
      if |entry| < 2 {
        continue;
      }
      var parts := Split(entry[1..|entry| - 1], ',');
      if !(8 <= |parts| <= 10) || !NumbersOk(parts) || !valid(parts[2]) || !valid(parts[3]) {
        continue;
      }
      var nicSubnet := None;
      if |parts| >= 9 {
        nicSubnet := Some(ToNat(parts[8]));
      }
      var nicPort := ToNat(parts[4]);
      if |parts| == 10 {
        nicPort := ToNat(parts[9]);
      }
      var info := Info(ToNat(parts[0]), ToNat(parts[1]), parts[2], parts[3], ToNat(parts[4]),
                       NatType(ToNat(parts[5])), ToNat(parts[6]), ToNat(parts[7]), nicSubnet, nicPort);
      out := out[info.ifIndex := info];
    }
    assert entries[..|entries|] == entries;
  }

  predicate Clean(r: Record) { Plain(r.ext) && Plain(r.nic) }

  // The parser takes what has two IP addresses and no minus sign.
  predicate Understood(valid: string -> bool, r: Record) { r.deltaValue >= 0 && valid(r.ext) && valid(r.nic) }

  function InfoOf(r: Record): Info
    requires r.deltaValue >= 0
  {
    Info(r.netifaceIndex, r.ifIndex, r.ext, r.nic, r.extPort, NatType(r.natType), r.deltaType, r.deltaValue,
         Some(r.nicSubnet), r.nicPort)
  }

  /** Any entry of comma-free fields: understood exactly when there are eight to ten, all but the two
      addresses are numbers, and the addresses are; then every field has its place, a missing
      subnet is absent and a missing second port is the first. */
  lemma EntryReads(valid: string -> bool, fields: seq<string>)
    requires fields != [] && forall f :: f in fields ==> Free(f, ',')
    ensures var ok := 8 <= |fields| <= 10 && valid(fields[2]) && valid(fields[3])
                      && forall i :: 0 <= i < |fields| && i != 2 && i != 3 ==> IsNumber(fields[i]);
            ParseEntry(valid, Bracketed(fields))
            == if !ok then None
               else
                 Some(Info(netifaceIndex := ToNat(fields[0]), ifIndex := ToNat(fields[1]), ext := fields[2], nic := fields[3],
                           port := ToNat(fields[4]), natType := if ToNat(fields[5]) == 0 then 5 else ToNat(fields[5]),
                           deltaType := ToNat(fields[6]), deltaValue := ToNat(fields[7]),
                           nicSubnet := if |fields| >= 9 then Some(ToNat(fields[8])) else None,
                           nicPort := if |fields| == 10 then ToNat(fields[9]) else ToNat(fields[4])))
  {
    var e := Bracketed(fields);
    assert e[1..|e| - 1] == Join(fields, ',');
    SplitJoin(fields, ',');
    if 8 <= |fields| <= 10 { NumbersAre(fields); }
    hide Join, Split, ToNat, IsNumber, NumbersOk;
  }

  lemma NumbersAre(fields: seq<string>)
    requires 8 <= |fields| <= 10
    ensures NumbersOk(fields) <==> forall i :: 0 <= i < |fields| && i != 2 && i != 3 ==> IsNumber(fields[i])
  {
    hide IsNumber;
  }

  /** A record as text: ten fields between brackets, in this order. */
  lemma RecordText(r: Record)
    ensures Bracketed(Fields(r))
         == ['['] + (Dec(r.netifaceIndex) + [','] + (Dec(r.ifIndex) + [','] + (r.ext + [','] + (r.nic + [','] + (Dec(r.extPort) + [',']
            + (Dec(r.natType) + [','] + (Dec(r.deltaType) + [','] + (Signed(r.deltaValue) + [','] + (Dec(r.nicSubnet) + [',']
            + Dec(r.nicPort)))))))))) + [']']
  {
    var f := Fields(r);
    hide Dec, Signed;
    JoinMore(f, 0);
    JoinMore(f, 1);
    JoinMore(f, 2);
    JoinMore(f, 3);
    JoinMore(f, 4);
    JoinMore(f, 5);
    JoinMore(f, 6);
    JoinMore(f, 7);
    JoinMore(f, 8);
    JoinMore(f, 9);
    hide Join;
  }

  lemma JoinMore(f: seq<string>, k: nat)
    requires k < |f|
    ensures Join(f[k..], ',') == if k + 1 < |f| then f[k] + [','] + Join(f[k + 1..], ',') else f[k]
    ensures k == 0 ==> Join(f, ',') == Join(f[k..], ',')
  {
    assert k + 1 < |f| ==> f[k..][1..] == f[k + 1..];
    assert f[0..] == f;
  }

  lemma DecPlain(n: nat)
    ensures Plain(Dec(n))
  {
  }

  lemma FieldValues(r: Record)
    requires Clean(r)
    ensures var f := Fields(r);
            && |f| == 10 && f[2] == r.ext && f[3] == r.nic
            && ToNat(f[0]) == r.netifaceIndex && ToNat(f[1]) == r.ifIndex && ToNat(f[4]) == r.extPort && ToNat(f[5]) == r.natType
            && ToNat(f[6]) == r.deltaType && ToNat(f[8]) == r.nicSubnet && ToNat(f[9]) == r.nicPort
            && (r.deltaValue >= 0 ==> ToNat(f[7]) == r.deltaValue) && (NumbersOk(f) <==> r.deltaValue >= 0)
  {
    DecRoundTrip(r.netifaceIndex);
    DecRoundTrip(r.ifIndex);
    DecRoundTrip(r.extPort);
    DecRoundTrip(r.natType);
    DecRoundTrip(r.deltaType);
    DecRoundTrip(r.nicSubnet);
    DecRoundTrip(r.nicPort);
    SignedRoundTrip(r.deltaValue);
    DecRoundTrip(if r.deltaValue < 0 then 0 else r.deltaValue);
    hide Dec, ToNat, IsNumber, Plain, Free;
  }

  lemma FieldsPlain(r: Record)
    requires Clean(r)
    ensures forall f :: f in Fields(r) ==> Plain(f)
  {
    DecPlain(r.netifaceIndex);
    DecPlain(r.ifIndex);
    DecPlain(r.extPort);
    DecPlain(r.natType);
    DecPlain(r.deltaType);
    DecPlain(r.nicSubnet);
    DecPlain(r.nicPort);
    SignedPlain(r.deltaValue);
    hide Dec, Signed, Plain;
  }

  lemma SignedPlain(n: int)
    ensures Plain(Signed(n))
  {
    SignedRoundTrip(n);
  }

  /** A printed record is restored field by field if it is understood, and dropped otherwise. */
  lemma RecordParses(valid: string -> bool, r: Record)
    requires Clean(r)
    ensures var e := Bracketed(Fields(r));
            && ParseEntry(valid, e) == (if Understood(valid, r) then Some(InfoOf(r)) else None)
            && Free(e, '|') && Free(e, '^') && |e| >= 2
  {
    FieldValues(r);
    FieldsPlain(r);
    hide Bracketed, Fields, ToNat, NumbersOk, Plain, Clean;
    BracketedParts(Fields(r));
  }

  /** What a list of records comes to. */
  function Restored(valid: string -> bool, records: seq<Record>): map<nat, Info> {
    if records == [] then map[]
    else
      var before := Restored(valid, records[..|records| - 1]);
      var r := records[|records| - 1];
      if Understood(valid, r) then before[r.ifIndex := InfoOf(r)] else before
  }

  lemma EntriesSnoc(records: seq<Record>)
    requires records != []
    ensures var last := |records| - 1;
            RecordEntries(records) == RecordEntries(records[..last]) + [Bracketed(Fields(records[last]))]
  {
    hide Bracketed, Fields;
  }

  lemma {:induction false} RecordsParse(valid: string -> bool, records: seq<Record>)
    requires forall r :: r in records ==> Clean(r)
    ensures InfosOf(valid, RecordEntries(records)) == Restored(valid, records)
    ensures forall e :: e in RecordEntries(records) ==> Free(e, '|') && Free(e, '^')
  {
    if records != [] {
      var last := |records| - 1;
      RecordsParse(valid, records[..last]);
      RecordParses(valid, records[last]);
      EntriesSnoc(records);
      hide Bracketed, ParseEntry, Fields, RecordEntries, Understood, InfoOf;
      var before := RecordEntries(records[..last]);
      assert (before + [Bracketed(Fields(records[last]))])[..last] == before;
    }
  }

  lemma SectionRoundTrip(valid: string -> bool, records: seq<Record>)
    requires forall r :: r in records ==> Clean(r)
    ensures ParseSection(valid, Section(records)) == Restored(valid, records) && Free(Section(records), '^')
  {
    if records == [] {
      SplitAt("0", [], '|');
      assert InfosOf(valid, ["0"][..0]) == map[];
    } else {
      RecordsParse(valid, records);
      SplitJoin(RecordEntries(records), '|');
      JoinFree(RecordEntries(records), '|', '^');
      hide InfosOf, RecordEntries;
    }
  }

  predicate DistinctIndices(records: seq<Record>) {
    forall i, j :: 0 <= i < j < |records| ==> records[i].ifIndex != records[j].ifIndex
  }

  /** With distinct interface indices every understood record is found, and nothing else. */
  lemma {:induction false} RestoredExactly(valid: string -> bool, records: seq<Record>, k: nat)
    requires DistinctIndices(records)
    ensures k in Restored(valid, records) <==> exists i :: 0 <= i < |records| && records[i].ifIndex == k && Understood(valid, records[i])
    ensures forall i :: 0 <= i < |records| && records[i].ifIndex == k && Understood(valid, records[i]) ==>
                          Restored(valid, records)[k] == InfoOf(records[i])
  {
    if records != [] {
      RestoredExactly(valid, records[..|records| - 1], k);
    }
  }

  // --- Validation --------------------------------------------------------------------------------------

  /** What validation asks of one interface whose addresses have maxBits bits. */
  predicate InfoValid(i: Info, maxBits: nat) {
    && (i.port == 0 || 1 <= i.port <= MAX_PORT)
    && OPEN_INTERNET <= i.natType <= BLOCKED_NAT
    && NA_DELTA <= i.deltaType <= RANDOM_DELTA
    && i.deltaValue <= MAX_PORT
    && (i.nicSubnet.Some? ==> i.nicSubnet.value <= maxBits)
    && (i.nicPort != 0 && i.nicPort != i.port ==> 1 <= i.nicPort <= MAX_PORT)
    && (i.port != 0 || i.nicPort != 0)
  }

  ghost predicate AllValid(infos: map<nat, Info>, maxBits: nat) {
    forall k :: k in infos ==> InfoValid(infos[k], maxBits)
  }

  ghost predicate NodeValid(node: Node) { AllValid(node.v4, 32) && AllValid(node.v6, 128) }

  method ValidateNodeAddr(node: Node) returns (r: Option<Node>)
    ensures r == if NodeValid(node) then Some(node) else None
  {
    var ok4 := ValidateInfos(node.v4, 32);
    if !ok4 {
      return None;
    }
    var ok6 := ValidateInfos(node.v6, 128);
    return if ok6 then Some(node) else None;
  }

  method ValidateInfos(infos: map<nat, Info>, maxBits: nat) returns (ok: bool)
    ensures ok <==> AllValid(infos, maxBits)
  {
    var left := infos.Keys;
    while left != {}
      invariant left <= infos.Keys
      invariant forall k :: k in infos && k !in left ==> InfoValid(infos[k], maxBits)
    {
      var k :| k in left;
      var info := infos[k];
      if info.port != 0 && !(1 <= info.port <= MAX_PORT) {
        return false;
      }
      if !(OPEN_INTERNET <= info.natType <= BLOCKED_NAT) {
        return false;
      }
      if !(NA_DELTA <= info.deltaType <= RANDOM_DELTA) {
        return false;
      }
      if info.deltaValue > MAX_PORT {
        return false;
      }
      if info.nicSubnet.Some? && info.nicSubnet.value > maxBits {
        return false;
      }
      if info.nicPort != 0 && info.nicPort != info.port {
        if !(1 <= info.nicPort <= MAX_PORT) {
          return false;
        }
      }
      if info.port == 0 && info.nicPort == 0 {
        return false;
      }
      left := left - {k};
    }
    return true;
  }

  /** The ranges a record may announce: two ports of which one is set, a NAT type (0 stands
      for the default), a delta, and a prefix length that fits the address family. */
  predicate RecordInRange(r: Record, maxBits: nat) {
    && r.extPort <= 65535 && r.nicPort <= 65535 && r.extPort + r.nicPort > 0
    && r.natType <= 7 && 1 <= r.deltaType <= 6 && r.deltaValue <= 65535 && r.nicSubnet <= maxBits
  }

  /** Understood, and not replaced by a later record of the same interface. */
  ghost predicate Survives(valid: string -> bool, records: seq<Record>, i: int) {
    && 0 <= i < |records| && Understood(valid, records[i])
    && forall j :: i < j < |records| && Understood(valid, records[j]) ==> records[j].ifIndex != records[i].ifIndex
  }

  ghost predicate AllInRange(valid: string -> bool, records: seq<Record>, maxBits: nat) {
    forall i :: Survives(valid, records, i) ==> RecordInRange(records[i], maxBits)
  }

  ghost predicate UnderstoodInRange(valid: string -> bool, records: seq<Record>, maxBits: nat) {
    forall r :: r in records && Understood(valid, r) ==> RecordInRange(r, maxBits)
  }

  /** The table holds the surviving records, and nothing else. */
  lemma {:induction false} SurvivorsRestored(valid: string -> bool, records: seq<Record>, k: nat)
    ensures k in Restored(valid, records) ==>
              exists i :: Survives(valid, records, i) && records[i].ifIndex == k && Restored(valid, records)[k] == InfoOf(records[i])
    ensures forall i :: Survives(valid, records, i) && records[i].ifIndex == k ==>
              k in Restored(valid, records) && Restored(valid, records)[k] == InfoOf(records[i])
  {
    if records != [] {
      var init, r := records[..|records| - 1], records[|records| - 1];
      SurvivorsRestored(valid, init, k);
      forall i | 0 <= i < |init| && !(Understood(valid, r) && r.ifIndex == init[i].ifIndex)
        ensures Survives(valid, init, i) <==> Survives(valid, records, i)
      {
        SurvivesOn(valid, records, i);
      }
      hide InfoOf, Understood;
      if Understood(valid, r) { assert Survives(valid, records, |init|); }
    }
  }

  lemma SurvivesOn(valid: string -> bool, records: seq<Record>, i: int)
    requires 0 <= i < |records| - 1
    requires var r := records[|records| - 1]; !(Understood(valid, r) && r.ifIndex == records[i].ifIndex)
    ensures Survives(valid, records[..|records| - 1], i) <==> Survives(valid, records, i)
  {
    hide Understood;
  }

  lemma SectionValidIff(valid: string -> bool, records: seq<Record>, maxBits: nat)
    ensures AllValid(Restored(valid, records), maxBits) <==> AllInRange(valid, records, maxBits)
  {
    var infos := Restored(valid, records);
    if AllInRange(valid, records, maxBits) {
      forall k | k in infos ensures InfoValid(infos[k], maxBits) { SurvivorsRestored(valid, records, k); }
    } else {
      var i :| Survives(valid, records, i) && !RecordInRange(records[i], maxBits);
      SurvivorsRestored(valid, records, records[i].ifIndex);
      assert !InfoValid(infos[records[i].ifIndex], maxBits);
    }
    hide Restored;
  }

  /** When no interface is announced twice, every understood record counts. */
  lemma DistinctAllInRange(valid: string -> bool, records: seq<Record>, maxBits: nat)
    requires DistinctIndices(records)
    ensures AllInRange(valid, records, maxBits) <==> UnderstoodInRange(valid, records, maxBits)
  {
    hide Understood, RecordInRange;
    forall i | 0 <= i < |records| && Understood(valid, records[i]) ensures Survives(valid, records, i) {}
  }

  // --- The whole address -----------------------------------------------------------------------------

  /** The optional sections: hints when there are any or an OS, then the OS. */
  function Parts(v4: seq<Record>, v6: seq<Record>, pubKey: string, machineId: string,
                 mqtt: seq<Hint>, turn: seq<Hint>, os: string): seq<string>
  {
    [Section(v4), Section(v6), pubKey, machineId]
    + (if mqtt != [] || turn != [] || os != [] then [EncodeHints(mqtt), EncodeHints(turn)] else [])
    + (if os != [] then [os] else [])
  }

  function MakeNodeAddr(v4: seq<Record>, v6: seq<Record>, pubKey: string, machineId: string,
                        mqtt: seq<Hint>, turn: seq<Hint>, os: string): string
  {
    Join(Parts(v4, v6, pubKey, machineId, mqtt, turn, os), '^')
  }

  function FromParts(valid: string -> bool, parts: seq<string>): Node
    requires |parts| in {4, 6, 7}
  {
    Node(ParseSection(valid, parts[0]), ParseSection(valid, parts[1]), parts[2], parts[3],
         if |parts| >= 6 then ParseHints(parts[4]) else [], if |parts| >= 6 then ParseHints(parts[5]) else [],
         if |parts| == 7 && parts[6] != [] then Some(parts[6]) else None)
  }

  function ParseNodeAddr(valid: string -> bool, addr: string): Option<Node> {
    var parts := Split(addr, '^');
    if |parts| !in {4, 6, 7} then None else Some(FromParts(valid, parts))
  }

  method ParseAddress(valid: string -> bool, addr: string) returns (node: Option<Node>)
    ensures node == ParseNodeAddr(valid, addr)
  {
    var parts := Split(addr, '^');
    if |parts| != 4 && |parts| != 6 && |parts| != 7 {
      return None;
    }
    var mqtt: seq<Hint>, turn: seq<Hint> := [], [];
    if |parts| >= 6 {
      mqtt := ParseServerHints(parts[4]);
      turn := ParseServerHints(parts[5]);
    }
    var os := if |parts| >= 7 && parts[6] != [] then Some(parts[6]) else None;
    var v4 := ParseInterfaces(valid, parts[0]);
    var v6 := ParseInterfaces(valid, parts[1]);
    var parsed := Node(v4, v6, parts[2], parts[3], mqtt, turn, os);
    var ignored := ValidateNodeAddr(parsed);
    return Some(parsed);
  }

  method MakeAddress(v4: seq<Record>, v6: seq<Record>, pubKey: string, machineId: string,
                     mqtt: seq<Hint>, turn: seq<Hint>, os: string) returns (addr: string)
    ensures addr == MakeNodeAddr(v4, v6, pubKey, machineId, mqtt, turn, os)
  {
    var bufs: seq<string> := [];
    var s4 := EncodeSection(v4);
    bufs := bufs + [s4];
    var s6 := EncodeSection(v6);
    bufs := bufs + [s6];
    bufs := bufs + [pubKey];
    bufs := bufs + [machineId];
    if mqtt != [] || turn != [] || os != [] {
      var m := EncodeServerHints(mqtt);
      var t := EncodeServerHints(turn);
      bufs := bufs + [m];
      bufs := bufs + [t];
    }
    if os != [] {
      bufs := bufs + [os];
    }
    hide Section, EncodeHints;
    assert bufs == Parts(v4, v6, pubKey, machineId, mqtt, turn, os);
    return Join(bufs, '^');
  }

  method EncodeSection(records: seq<Record>) returns (section: string)
    ensures section == Section(records)
  {
    var bufs: seq<string> := [];
    for i := 0 to |records|
      invariant bufs == RecordEntries(records[..i])
    {
      EntriesSnoc(records[..i + 1]);
      assert records[..i + 1][..i] == records[..i];
      bufs := bufs + [Bracketed(Fields(records[i]))];
    }
    assert records[..|records|] == records;
    hide Bracketed, Fields;
    return if |bufs| > 0 then Join(bufs, '|') else "0";
  }

  predicate Printable(v4: seq<Record>, v6: seq<Record>, pubKey: string, machineId: string,
                      mqtt: seq<Hint>, turn: seq<Hint>, os: string)
  {
    && (forall r :: r in v4 ==> Clean(r)) && (forall r :: r in v6 ==> Clean(r))
    && (forall h :: h in mqtt ==> Plain(h.host)) && (forall h :: h in turn ==> Plain(h.host))
    && Free(pubKey, '^') && Free(machineId, '^') && Free(os, '^')
  }

  /** Parsing what was printed restores every understood interface, the keys, both hint
      lists and the OS, in all three shapes. */
  lemma NodeAddrRoundTrip(valid: string -> bool, v4: seq<Record>, v6: seq<Record>, pubKey: string, machineId: string,
                          mqtt: seq<Hint>, turn: seq<Hint>, os: string)
    requires Printable(v4, v6, pubKey, machineId, mqtt, turn, os)
    ensures ParseNodeAddr(valid, MakeNodeAddr(v4, v6, pubKey, machineId, mqtt, turn, os))
         == Some(Node(Restored(valid, v4), Restored(valid, v6), pubKey, machineId, Useable(mqtt), Useable(turn),
                      if os != [] then Some(os) else None))
  {
    SectionRoundTrip(valid, v4);
    SectionRoundTrip(valid, v6);
    HintsRoundTrip(mqtt);
    HintsRoundTrip(turn);
    hide Section, EncodeHints, ParseSection, ParseHints, Join, Split, Restored, Useable;
    PartsShape(v4, v6, pubKey, machineId, mqtt, turn, os);
    SplitJoin(Parts(v4, v6, pubKey, machineId, mqtt, turn, os), '^');
    UnpackParts(valid, v4, v6, pubKey, machineId, mqtt, turn, os);
    hide Parts, FromParts;
  }

  /** What a printed address decodes to passes validation if and only if every record that
      survives is in range, for each family with its own prefix length. */
  lemma DecodedValidIff(valid: string -> bool, v4: seq<Record>, v6: seq<Record>, pubKey: string, machineId: string,
                        mqtt: seq<Hint>, turn: seq<Hint>, os: string)
    requires Printable(v4, v6, pubKey, machineId, mqtt, turn, os)
    ensures var node := ParseNodeAddr(valid, MakeNodeAddr(v4, v6, pubKey, machineId, mqtt, turn, os));
            node.Some? && (NodeValid(node.value) <==> AllInRange(valid, v4, 32) && AllInRange(valid, v6, 128))
  {
    NodeAddrRoundTrip(valid, v4, v6, pubKey, machineId, mqtt, turn, os);
    SectionValidIff(valid, v4, 32);
    SectionValidIff(valid, v6, 128);
    hide ParseNodeAddr, MakeNodeAddr, AllValid, AllInRange, Restored, Useable;
  }

  /** When no interface is announced twice, that is every record that is understood. */
  lemma DistinctValidIff(valid: string -> bool, v4: seq<Record>, v6: seq<Record>, pubKey: string, machineId: string,
                         mqtt: seq<Hint>, turn: seq<Hint>, os: string)
    requires Printable(v4, v6, pubKey, machineId, mqtt, turn, os) && DistinctIndices(v4) && DistinctIndices(v6)
    ensures var node := ParseNodeAddr(valid, MakeNodeAddr(v4, v6, pubKey, machineId, mqtt, turn, os));
            node.Some? && (NodeValid(node.value) <==> UnderstoodInRange(valid, v4, 32) && UnderstoodInRange(valid, v6, 128))
  {
    DecodedValidIff(valid, v4, v6, pubKey, machineId, mqtt, turn, os);
    DistinctAllInRange(valid, v4, 32);
    DistinctAllInRange(valid, v6, 128);
    hide ParseNodeAddr, MakeNodeAddr, NodeValid, AllInRange, UnderstoodInRange, DistinctIndices, Printable;
  }

  const BAD_PORT := Record(1, 0, "192.0.2.1", "198.51.100.1", 70000, 3, 2, 0, 24, 3000)

  /** An address with port 70000 parses, and the port is handed on, though validation says no. */
  lemma BadPortComesThrough(valid: string -> bool)
    requires valid("192.0.2.1") && valid("198.51.100.1")
    ensures var node := ParseNodeAddr(valid, MakeNodeAddr([BAD_PORT], [], "key", "id", [], [], ""));
            node.Some? && 0 in node.value.v4 && node.value.v4[0].port == 70000 && !NodeValid(node.value)
  {
    BadPortPrintable();
    NodeAddrRoundTrip(valid, [BAD_PORT], [], "key", "id", [], [], "");
    BadPortRestored(valid);
    assert !InfoValid(InfoOf(BAD_PORT), 32);
    hide ParseNodeAddr, MakeNodeAddr, Useable, Restored, Printable;
  }

  lemma BadPortPrintable()
    ensures Printable([BAD_PORT], [], "key", "id", [], [], "")
  {
  }

  lemma BadPortRestored(valid: string -> bool)
    requires valid("192.0.2.1") && valid("198.51.100.1")
    ensures Restored(valid, [BAD_PORT]) == map[0 := InfoOf(BAD_PORT)]
  {
    assert [BAD_PORT][..0] == [];
  }

  lemma PartsShape(v4: seq<Record>, v6: seq<Record>, pubKey: string, machineId: string,
                   mqtt: seq<Hint>, turn: seq<Hint>, os: string)
    requires Free(Section(v4), '^') && Free(Section(v6), '^') && Free(EncodeHints(mqtt), '^') && Free(EncodeHints(turn), '^')
    requires Free(pubKey, '^') && Free(machineId, '^') && Free(os, '^')
    ensures var parts := Parts(v4, v6, pubKey, machineId, mqtt, turn, os);
            |parts| in {4, 6, 7} && forall p :: p in parts ==> Free(p, '^')
  {
    hide Section, EncodeHints, Free;
  }

  lemma UnpackParts(valid: string -> bool, v4: seq<Record>, v6: seq<Record>, pubKey: string, machineId: string,
                    mqtt: seq<Hint>, turn: seq<Hint>, os: string)
    requires |Parts(v4, v6, pubKey, machineId, mqtt, turn, os)| in {4, 6, 7}
    ensures FromParts(valid, Parts(v4, v6, pubKey, machineId, mqtt, turn, os))
         == Node(ParseSection(valid, Section(v4)), ParseSection(valid, Section(v6)), pubKey, machineId,
                 if mqtt != [] || turn != [] || os != [] then ParseHints(EncodeHints(mqtt)) else [],
                 if mqtt != [] || turn != [] || os != [] then ParseHints(EncodeHints(turn)) else [],
                 if os != [] then Some(os) else None)
  {
    hide Section, EncodeHints, ParseSection, ParseHints;
  }

  /** Appending the hint sections, or the OS after them, changes nothing that was decoded before. */
  lemma LaterSectionsKeep(valid: string -> bool, addr: string, mqtt: string, turn: string, os: string)
    requires ParseNodeAddr(valid, addr).Some? && |Split(addr, '^')| == 4
    requires Free(mqtt, '^') && Free(turn, '^') && Free(os, '^')
    ensures var node := ParseNodeAddr(valid, addr).value;
            var six := addr + ['^'] + mqtt + ['^'] + turn;
            && ParseNodeAddr(valid, six) == Some(node.(mqttBrokers := ParseHints(mqtt), turnServers := ParseHints(turn)))
            && ParseNodeAddr(valid, six + ['^'] + os)
               == Some(ParseNodeAddr(valid, six).value.(os := if os != [] then Some(os) else None))
  {
    var six := addr + ['^'] + mqtt + ['^'] + turn;
    hide Split, ParseSection, ParseHints;
    SplitMore(addr, mqtt, '^');
    SplitMore(addr + ['^'] + mqtt, turn, '^');
    SplitMore(six, os, '^');
    SplitAt(mqtt, [], '^');
    SplitAt(turn, [], '^');
    SplitAt(os, [], '^');
    var parts := Split(addr, '^');
    assert Split(six, '^') == parts + [mqtt] + [turn];
    assert Split(six + ['^'] + os, '^') == parts + [mqtt] + [turn] + [os];
    hide Free;
  }

  /** A section as text: "0" for none, else the records one after the other with '|' between them. */
  lemma SectionText(records: seq<Record>, r: Record)
    ensures Section([]) == "0"
    ensures Section(records + [r])
         == if records == [] then Bracketed(Fields(r)) else Section(records) + ['|'] + Bracketed(Fields(r))
  {
    EntriesSnoc(records + [r]);
    assert (records + [r])[..|records|] == records;
    JoinSnoc(RecordEntries(records), Bracketed(Fields(r)), '|');
    hide Bracketed, Fields, RecordEntries, Join;
  }

  /** A hint as text, and hints: the useful ones, '|' between them, "0" for none. */
  lemma HintText(h: Hint, hints: seq<Hint>)
    requires h.host != [] && h.port != 0
    ensures Bracketed(HintFields(h)) == ['['] + (Signed(h.af) + [','] + (h.host + [','] + Signed(h.port))) + [']']
    ensures EncodeHints([]) == "0"
    ensures EncodeHints(hints + [h])
         == if Useable(hints) == [] then Bracketed(HintFields(h)) else EncodeHints(hints) + ['|'] + Bracketed(HintFields(h))
  {
    var f := HintFields(h);
    JoinMore(f, 0);
    JoinMore(f, 1);
    JoinMore(f, 2);
    assert (hints + [h])[..|hints|] == hints;
    var kept := Useable(hints);
    assert Useable(hints + [h]) == kept + [h];
    HintEntriesSnoc(kept + [h]);
    assert (kept + [h])[..|kept|] == kept;
    JoinSnoc(HintEntries(kept), Bracketed(f), '|');
    hide Signed, HintEntries, Useable;
  }

  lemma {:induction false} JoinSnoc(parts: seq<string>, last: string, c: char)
    ensures Join(parts + [last], c) == if parts == [] then last else Join(parts, c) + [c] + last
  {
    if parts == [] {
      assert parts + [last] == [last];
    } else {
      JoinSnoc(parts[1..], last, c);
      assert (parts + [last])[1..] == parts[1..] + [last];
      if |parts| > 1 {
        assert parts[0] + [c] + (Join(parts[1..], c) + [c] + last) == parts[0] + [c] + Join(parts[1..], c) + [c] + last;
      }
    }
  }

  /** The address as text: the sections with '^' between them, four, six or seven of them. */
  lemma AddressText(v4: seq<Record>, v6: seq<Record>, pubKey: string, machineId: string,
                    mqtt: seq<Hint>, turn: seq<Hint>, os: string)
    ensures var four := Section(v4) + ['^'] + Section(v6) + ['^'] + pubKey + ['^'] + machineId;
            var six := four + ['^'] + EncodeHints(mqtt) + ['^'] + EncodeHints(turn);
            MakeNodeAddr(v4, v6, pubKey, machineId, mqtt, turn, os)
            == if os != [] then six + ['^'] + os else if mqtt != [] || turn != [] then six else four
  {
    hide Section, EncodeHints;
    var p1 := [Section(v4)];
    var p2 := p1 + [Section(v6)];
    var p3 := p2 + [pubKey];
    var p4 := p3 + [machineId];
    var p5 := p4 + [EncodeHints(mqtt)];
    var p6 := p5 + [EncodeHints(turn)];
    var p7 := p6 + [os];
    PartsAre(v4, v6, pubKey, machineId, mqtt, turn, os);
    JoinSnoc([], Section(v4), '^');
    assert p1 == [] + [Section(v4)];
    JoinSnoc(p1, Section(v6), '^');
    JoinSnoc(p2, pubKey, '^');
    JoinSnoc(p3, machineId, '^');
    JoinSnoc(p4, EncodeHints(mqtt), '^');
    JoinSnoc(p5, EncodeHints(turn), '^');
    JoinSnoc(p6, os, '^');
    hide Join, Parts;
  }

  lemma PartsAre(v4: seq<Record>, v6: seq<Record>, pubKey: string, machineId: string,
                 mqtt: seq<Hint>, turn: seq<Hint>, os: string)
    ensures var four := [Section(v4)] + [Section(v6)] + [pubKey] + [machineId];
            var six := four + [EncodeHints(mqtt)] + [EncodeHints(turn)];
            Parts(v4, v6, pubKey, machineId, mqtt, turn, os)
            == if os != [] then six + [os] else if mqtt != [] || turn != [] then six else four
  {
    hide Section, EncodeHints;
  }
}
