/** Link-layer framing: Ethernet II, and the address-family prefix of the BSD loopbacks. */
module Link {
  import opened Bytes

  const DLT_NULL := 0
  const DLT_EN10MB := 1
  const DLT_LOOP := 108

  const ETH_HDR_LEN := 14
  const ETH_MIN_FRAME := 60
  const ETH_TYPE_IPV4 := 0x0800
  const ETH_TYPE_IPV6 := 0x86DD

  datatype EthFrame = EthFrame(dstMac: bytes, srcMac: bytes, etherType: nat, payload: bytes)

  /** Short frames are filled up with zeros. */
  function BuildEthFrame(dstMac: bytes, srcMac: bytes, etherType: nat, payload: bytes): (r: Result<bytes>) {
    if |dstMac| != 6 || |srcMac| != 6 then ValueError
    else if etherType >= 0x1_0000 then StructError
    else
      var frame := dstMac + srcMac + U16(etherType) + payload;
      Ok(if |frame| < ETH_MIN_FRAME then frame + Zeros(ETH_MIN_FRAME - |frame|) else frame)
  }

  function ParseEthFrame(frame: bytes): (r: Result<EthFrame>) {
    if |frame| < ETH_HDR_LEN then ValueError
    else Ok(EthFrame(frame[..6], frame[6..12], ToU16(frame[12..14]), frame[ETH_HDR_LEN..]))
  }

  // struct "<I" and ">I"
  function U32Le(n: int): (r: bytes)
    requires 0 <= n < 0x1_0000_0000
    ensures |r| == 4
  {
    var b := U32(n); [b[3], b[2], b[1], b[0]]
  }

  function ToU32Le(b: bytes): (n: int)
    requires |b| == 4
  {
    ToU32([b[3], b[2], b[1], b[0]])
  }

  /** The address family a four-octet prefix names; AF_INET6 differs between the BSDs. */
  function FamilyOf(af: int): (r: Option<nat>) {
    if af == 2 then Some(ETH_TYPE_IPV4) else if af in {24, 28, 30} then Some(ETH_TYPE_IPV6) else None
  }

  function StripLinkLayer(dlt: nat, frame: bytes): (r: Result<(nat, bytes)>) {
    if dlt == DLT_EN10MB then
      match ParseEthFrame(frame)
      case Ok(f) => Ok((f.etherType, f.payload))
      case _ => ValueError
    else if dlt != DLT_NULL && dlt != DLT_LOOP then ValueError
    else if |frame| < 4 then ValueError
    else
      var rest := frame[4..];
      var big := ToU32(frame[..4]);
      if dlt == DLT_LOOP then
        match FamilyOf(big)
        case Some(et) => Ok((et, rest))
        case None => ValueError
      else
        var little := ToU32Le(frame[..4]);
        if little == 2 || big == 2 then Ok((ETH_TYPE_IPV4, rest))
        else if little in {24, 28, 30} || big in {24, 28, 30} then Ok((ETH_TYPE_IPV6, rest))
        else ValueError
  }

  function WrapLinkLayer(dlt: nat, etherType: nat, dstMac: bytes, srcMac: bytes, payload: bytes): (r: Result<bytes>) {
    if dlt == DLT_EN10MB then BuildEthFrame(dstMac, srcMac, etherType, payload)
    else if dlt == DLT_NULL then
      if etherType == ETH_TYPE_IPV4 then Ok(U32Le(2) + payload)
      else if etherType == ETH_TYPE_IPV6 then Ok(U32Le(30) + payload)
      else ValueError
    else if dlt == DLT_LOOP then
      if etherType == ETH_TYPE_IPV4 then Ok(U32(2) + payload)
      else if etherType == ETH_TYPE_IPV6 then Ok(U32(24) + payload)
      else ValueError
    else ValueError
  }

  /** What Ethernet appends to a short packet. */
  function Padding(dlt: nat, payload: bytes): (r: bytes) {
    if dlt == DLT_EN10MB && |payload| < ETH_MIN_FRAME - ETH_HDR_LEN then Zeros(ETH_MIN_FRAME - ETH_HDR_LEN - |payload|) else []
  }

  /** Stripping undoes wrapping up to Ethernet's padding, on every datalink. */
  lemma StripWrap(dlt: nat, etherType: nat, dstMac: bytes, srcMac: bytes, payload: bytes)
    requires WrapLinkLayer(dlt, etherType, dstMac, srcMac, payload).Ok?
    ensures StripLinkLayer(dlt, WrapLinkLayer(dlt, etherType, dstMac, srcMac, payload).value)
         == Ok((etherType, payload + Padding(dlt, payload)))
  {
    var frame := WrapLinkLayer(dlt, etherType, dstMac, srcMac, payload).value;
    if dlt == DLT_EN10MB {
      EthRoundTrip(dstMac, srcMac, etherType, payload);
    } else {
      assert U32(2) == [0, 0, 0, 2] && U32(24) == [0, 0, 0, 24] && U32(30) == [0, 0, 0, 30];
      assert ToU32([2, 0, 0, 0]) == 0x200_0000 && ToU32([30, 0, 0, 0]) == 0x1E00_0000;
      assert frame[..4] + payload == frame && frame[4..] == payload;
      assert payload + Padding(dlt, payload) == payload;
    }
  }

  lemma EthRoundTrip(dstMac: bytes, srcMac: bytes, etherType: nat, payload: bytes)
    requires BuildEthFrame(dstMac, srcMac, etherType, payload).Ok?
    ensures var frame := BuildEthFrame(dstMac, srcMac, etherType, payload).value;
            && |frame| >= ETH_MIN_FRAME
            && ParseEthFrame(frame) == Ok(EthFrame(dstMac, srcMac, etherType, payload + Padding(DLT_EN10MB, payload)))
  {
    var head := dstMac + srcMac + U16(etherType);
    var frame := BuildEthFrame(dstMac, srcMac, etherType, payload).value;
    assert frame == head + (payload + Padding(DLT_EN10MB, payload));
    assert head[12..14] == U16(etherType);
    assert frame[12..14] == head[12..14] && frame[..6] == dstMac && frame[6..12] == srcMac;
    hide U16, ToU16;
  }
}
