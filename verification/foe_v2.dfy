/** The 80-byte PPEv2 descriptor: IPv4 HNAPT and IPv6 5-tuple formats in one union. */
module FoeV2 {
  import opened Wire
  import opened Flow
  import opened Foe
  import opened Topology
  import opened Pedit

  const IB1_TIMESTAMP: bv32 := 0x0000_7fff
  const IB1_KEEPALIVE: bv32 := 0x0000_8000
  const IB1_PPPOE: bv32 := 0x0008_0000
  const IB1_PKT_TYPE: bv32 := 0x0e00_0000
  const TYPE_IPV4_HNAPT: bv32 := 0x0000_0000
  const TYPE_IPV6_5T: bv32 := 0x0a00_0000

  const ETH_P_IP: bv16 := 0x0800
  const ETH_P_8021Q: bv16 := 0x8100
  const ETH_P_PPP_SES: bv16 := 0x8864

  const FPIDX_LOOKUP: bv32 := 8

  // ---- MAC packing ----

  function MacHigh(a: bv8, b: bv8, c: bv8, d: bv8): bv32 { Word(d, c, b, a) }

  function MacLow(half: bv16, e: bv8, f: bv8): bv32 { Pack16(half, Half(f, e)) }

  function GetMac(hi: bv32, lo: bv32): (mac: Bytes)
    ensures |mac| == 6
  {
    [Byte3(hi), Byte2(hi), Byte1(hi), Byte0(hi), Byte3(lo), Byte2(lo)]
  }

  /** get_mac undoes set_mac, whatever vlan2 or pppoe_id is stored below the last two bytes. */
  lemma MacRoundTrip(mac: Bytes, half: bv16)
    requires |mac| == 6
    ensures GetMac(MacHigh(mac[0], mac[1], mac[2], mac[3]), MacLow(half, mac[4], mac[5])) == mac
  {
    BytesOfWord(mac[3], mac[2], mac[1], mac[0]);
    MacLowBytes(half, mac[4], mac[5]);
  }

  lemma MacLowBytes(half: bv16, e: bv8, f: bv8)
    ensures Byte3(MacLow(half, e, f)) == e && Byte2(MacLow(half, e, f)) == f
  {}

  // ---- Output resolution: the resulting VLAN stack and the forced port ----

  datatype Output = Output(vlan1: bv16, vlanLayers: nat, pppoe: Option<bv16>, fpidx: bv32)

  /** The TCI of section 9.6 of IEEE 802.1Q-2018 from a VID and a priority. */
  function VlanTci(vid: bv16, prio: bv8): bv16 {
    (vid & VLAN_VID_MASK) | (((prio as bv16) << 13) & VLAN_PRIO_MASK)
  }

  function ResolveVlan(link: Link, egress: Egress): Result<Output> {
    var pushed := Output(VlanTci(link.vlan.vid, link.vlan.prio), 1, None, 0);
    match egress
    case DsaPort(ralinkTag, index, bridge, standaloneVid) =>
      if !ralinkTag || index > 5 then Err(EOPNOTSUPP)
      else (match bridge
        case VlanAware(pvid) =>
          if link.vlan.push then Ok(pushed.(fpidx := index))
          else if link.vlan.pop then Ok(Output(0, 0, None, index))
          else if pvid.Err? then Err(pvid.error)
          else Ok(Output(pvid.value, 1, None, index))
        case VlanUnaware(bridgeVid) => Ok(Output(bridgeVid, 1, None, index))
        case NoBridge => Ok(Output(standaloneVid, 1, None, index)))
    case NotDsa(isFrameEngine) =>
      if !isFrameEngine then Err(EOPNOTSUPP)
      else if link.vlan.push then Ok(pushed.(fpidx := FPIDX_LOOKUP))
      else Ok(Output(0, 0, None, FPIDX_LOOKUP))
  }

  function ResolveOutput(link: Link, egress: Egress): Result<Output> {
    if link.vlan.push && link.vlan.proto != HTONS_8021Q then Err(EOPNOTSUPP)
    else match ResolveVlan(link, egress)
      case Err(e) => Err(e)
      case Ok(out) => Ok(out.(pppoe := if link.pppoe.push then Some(link.pppoe.sid) else None))
  }

  // ---- The builders ----

  function BuiltIb1(key: Key, out: Output, pktType: bv32): bv32 {
    pktType
    | (if key.ipProto == IPPROTO_UDP then IB1_UDP else 0)
    | (if out.vlanLayers == 0 then 0 else 0x0001_0000)
    | (if out.pppoe.Some? then IB1_PPPOE else 0)
    | IB1_TTL | IB1_KEEPALIVE
  }

  /** FPIDX, and the all-ones meter and accounting groups. */
  function BuiltIb2(out: Output): bv32 { ForcedPort(out.fpidx) }

  function ForcedPort(fpidx: bv32): bv32 { fpidx | 0x00fc_0000 | 0x0003_f000 }

  function BuiltVlan1(out: Output): bv16 { if out.vlanLayers > 0 then out.vlan1 else 0 }

  function BuiltPppoe(out: Output): bv16 { if out.pppoe.Some? then out.pppoe.value else 0 }

  function BuiltEtype4(out: Output): bv16 {
    if out.pppoe.Some? then ETH_P_PPP_SES else if out.vlanLayers > 0 then ETH_P_8021Q else ETH_P_IP
  }

  /** The IPv6 builder names only a VLAN ether type. */
  function BuiltEtype6(out: Output): bv16 { if out.vlanLayers > 0 then ETH_P_8021Q else 0 }

  function BuiltIpv4(data: FlowData, out: Output): Foe {
    var t, n, eth := data.tuple, data.rewritten, data.link.eth;
    ZERO_FOE.(
      w0 := BuiltIb1(t, out, TYPE_IPV4_HNAPT),
      w1 := Swap32(t.src.w0), w2 := Swap32(t.dst.w0), w3 := Pack16(Swap16(t.dstPort), Swap16(t.srcPort)),
      w4 := BuiltIb2(out),
      w5 := Swap32(n.src.w0), w6 := Swap32(n.dst.w0), w7 := Pack16(Swap16(n.dstPort), Swap16(n.srcPort)),
      w11 := Pack16(BuiltVlan1(out), BuiltEtype4(out)),
      w12 := MacHigh(eth[0], eth[1], eth[2], eth[3]), w13 := MacLow(0, eth[4], eth[5]),
      w14 := MacHigh(eth[6], eth[7], eth[8], eth[9]), w15 := MacLow(BuiltPppoe(out), eth[10], eth[11]))
  }

  function BuiltIpv6(data: FlowData, out: Output): Foe {
    var t, eth := data.tuple, data.link.eth;
    ZERO_FOE.(
      w0 := BuiltIb1(t, out, TYPE_IPV6_5T),
      w1 := Swap32(t.src.w0), w2 := Swap32(t.src.w1), w3 := Swap32(t.src.w2), w4 := Swap32(t.src.w3),
      w5 := Swap32(t.dst.w0), w6 := Swap32(t.dst.w1), w7 := Swap32(t.dst.w2), w8 := Swap32(t.dst.w3),
      w9 := Pack16(Swap16(t.dstPort), Swap16(t.srcPort)),
      w14 := BuiltIb2(out), w15 := Pack16(BuiltVlan1(out), BuiltEtype6(out)),
      w16 := MacHigh(eth[0], eth[1], eth[2], eth[3]), w17 := MacLow(0, eth[4], eth[5]),
      w18 := MacHigh(eth[6], eth[7], eth[8], eth[9]), w19 := MacLow(BuiltPppoe(out), eth[10], eth[11]))
  }

  /** IPv6 descriptors hold a route, so a rewritten tuple is refused. */
  function Prepared(data: FlowData, egress: Egress): Result<Foe> {
    if data.tuple.nProto != HTONS_IP && data.tuple.nProto != HTONS_IPV6 then Err(EOPNOTSUPP)
    else if data.tuple.nProto == HTONS_IPV6 && data.rewritten != InitialData(data.tuple).rewritten then Err(EOPNOTSUPP)
    else match ResolveOutput(data.link, egress)
      case Err(e) => Err(e)
      case Ok(out) => Ok(if data.tuple.nProto == HTONS_IP then BuiltIpv4(data, out) else BuiltIpv6(data, out))
  }

  // ---- The four-word address loops ----

  function LoadBe32(b: Bytes, i: nat): bv32
    requires i + 4 <= |b|
  {
    Word(b[i + 3], b[i + 2], b[i + 1], b[i])
  }

  function AddrWord(a: Addr, i: nat): bv32
    requires i < 4
  {
    if i == 0 then a.w0 else if i == 1 then a.w1 else if i == 2 then a.w2 else a.w3
  }

  lemma BytesOfAddr(a: Addr, i: nat)
    requires i < 4
    ensures AddrBytes(a)[4 * i..4 * i + 4] == Bytes32(AddrWord(a, i))
  {}

  lemma BigEndianLoad(w: bv32)
    ensures LoadBe32(Bytes32(w), 0) == Swap32(w)
  {}

  /** Each big-endian load of four address bytes is the swapped memory word. */
  method Ipv6ToFoe(dst: array<bv32>, src: Addr)
    requires dst.Length == 4
    modifies dst
    ensures forall i :: 0 <= i < 4 ==> dst[i] == Swap32(AddrWord(src, i))
  {
    hide Bytes32, AddrBytes, Swap32, Word;
    var b := AddrBytes(src);
    for i := 0 to 4
      invariant forall k :: 0 <= k < i ==> dst[k] == Swap32(AddrWord(src, k))
    {
      dst[i] := LoadBe32(b, i * 4);
      assert dst[i] == LoadBe32(b[4 * i..4 * i + 4], 0);
      BytesOfAddr(src, i);
      BigEndianLoad(AddrWord(src, i));
    }
  }

  /** The inverse loop stores each word in network order. */
  method Ipv6FromFoe(dst: array<bv8>, src: seq<bv32>)
    requires dst.Length == 16 && |src| == 4
    modifies dst
    ensures dst[..] == AddrBytes(Addr(Swap32(src[0]), Swap32(src[1]), Swap32(src[2]), Swap32(src[3])))
  {
    hide Swap32, Bytes32, BigEndian32;
    for i := 0 to 4
      invariant forall k :: 0 <= k < i ==> dst[4 * k..4 * k + 4] == BigEndian32(src[k])
    {
      var word := BigEndian32(src[i]);
      forall k | 0 <= k < 4 { dst[i * 4 + k] := word[k]; }
      assert dst[4 * i..4 * i + 4] == word;
    }
    forall k | 0 <= k < 4 ensures dst[4 * k..4 * k + 4] == Bytes32(Swap32(src[k])) {
      SwapOfBigEndian(src[k]);
    }
    assert dst[..] == dst[4 * 0..4 * 0 + 4] + dst[4 * 1..4 * 1 + 4] + dst[4 * 2..4 * 2 + 4] + dst[4 * 3..4 * 3 + 4];
  }

  lemma SwapOfBigEndian(w: bv32)
    ensures BigEndian32(w) == Bytes32(Swap32(w))
  {}

  /** The IPv4 builder; a PPPoE session overrides the VLAN ether type, which overrides the IP one. */
  method BuildIpv4(data: FlowData, out: Output) returns (foe: Foe)
    ensures foe == BuiltIpv4(data, out)
  {
    hide Swap16, Swap32, Pack16, BuiltIb1, BuiltIb2, MacHigh, MacLow;
    var t, n, eth := data.tuple, data.rewritten, data.link.eth;
    var vlan1: bv16, pppoe: bv16, etype := 0, 0, ETH_P_IP;
    if out.vlanLayers > 0 {
      vlan1, etype := out.vlan1, ETH_P_8021Q;
    }
    if out.pppoe.Some? {
      pppoe, etype := out.pppoe.value, ETH_P_PPP_SES;
    }
    foe := ZERO_FOE.(
      w0 := BuiltIb1(t, out, TYPE_IPV4_HNAPT),
      w1 := Swap32(t.src.w0), w2 := Swap32(t.dst.w0), w3 := Pack16(Swap16(t.dstPort), Swap16(t.srcPort)));
    foe := foe.(
      w4 := BuiltIb2(out),
      w5 := Swap32(n.src.w0), w6 := Swap32(n.dst.w0), w7 := Pack16(Swap16(n.dstPort), Swap16(n.srcPort)));
    foe := foe.(
      w11 := Pack16(vlan1, etype),
      w12 := MacHigh(eth[0], eth[1], eth[2], eth[3]), w13 := MacLow(0, eth[4], eth[5]),
      w14 := MacHigh(eth[6], eth[7], eth[8], eth[9]), w15 := MacLow(pppoe, eth[10], eth[11]));
  }

  /** The IPv6 builder, through the address loops. */
  method BuildIpv6(data: FlowData, out: Output) returns (foe: Foe)
    ensures foe == BuiltIpv6(data, out)
  {
    hide Swap16, Swap32, Pack16, BuiltIb1, BuiltIb2, MacHigh, MacLow, BuiltPppoe;
    var t, eth := data.tuple, data.link.eth;
    var sip, dip := new bv32[4], new bv32[4];
    Ipv6ToFoe(sip, t.src);
    Ipv6ToFoe(dip, t.dst);
    var vlan1, etype: bv16 := 0, 0;
    if out.vlanLayers > 0 {
      vlan1, etype := out.vlan1, ETH_P_8021Q;
    }
    foe := ZERO_FOE.(
      w0 := BuiltIb1(t, out, TYPE_IPV6_5T),
      w1 := sip[0], w2 := sip[1], w3 := sip[2], w4 := sip[3],
      w5 := dip[0], w6 := dip[1], w7 := dip[2], w8 := dip[3],
      w9 := Pack16(Swap16(t.dstPort), Swap16(t.srcPort)),
      w14 := BuiltIb2(out), w15 := Pack16(vlan1, etype),
      w16 := MacHigh(eth[0], eth[1], eth[2], eth[3]), w17 := MacLow(0, eth[4], eth[5]),
      w18 := MacHigh(eth[6], eth[7], eth[8], eth[9]), w19 := MacLow(BuiltPppoe(out), eth[10], eth[11]));
  }

  // ---- Key and rewrite ----

  function PktType(e: Foe): bv32 { e.w0 & IB1_PKT_TYPE }

  predicate IsIpv4(e: Foe) { PktType(e) == TYPE_IPV4_HNAPT }
  predicate IsIpv6(e: Foe) { PktType(e) == TYPE_IPV6_5T }

  function KeyOf(e: Foe): Option<Key> {
    var ipProto := if e.w0 & IB1_UDP != 0 then IPPROTO_UDP else IPPROTO_TCP;
    if PktType(e) == TYPE_IPV4_HNAPT then
      Some(Key(HTONS_IP, ipProto, Swap16(Hi16(e.w3)), Swap16(Lo16(e.w3)),
               Ipv4Addr(Swap32(e.w1)), Ipv4Addr(Swap32(e.w2))))
    else if PktType(e) == TYPE_IPV6_5T then
      Some(Key(HTONS_IPV6, ipProto, Swap16(Hi16(e.w9)), Swap16(Lo16(e.w9)),
               Addr(Swap32(e.w1), Swap32(e.w2), Swap32(e.w3), Swap32(e.w4)),
               Addr(Swap32(e.w5), Swap32(e.w6), Swap32(e.w7), Swap32(e.w8))))
    else None
  }

  /** An address read through the inverse loop. */
  method ReadAddr(src: seq<bv32>) returns (a: Addr)
    requires |src| == 4
    ensures a == Addr(Swap32(src[0]), Swap32(src[1]), Swap32(src[2]), Swap32(src[3]))
  {
    hide Swap32, Load32, AddrBytes;
    var bytes := new bv8[16];
    Ipv6FromFoe(bytes, src);
    var b := bytes[..];
    a := Addr(Load32(b, 0), Load32(b, 4), Load32(b, 8), Load32(b, 12));
    ghost var addr := Addr(Swap32(src[0]), Swap32(src[1]), Swap32(src[2]), Swap32(src[3]));
    assert [] + AddrBytes(addr) + [] == b;
    LoadWords(addr, [], []);
  }

  /** Key extraction as the driver does it, IPv6 addresses through the loop. */
  method ReadKey(e: Foe) returns (key: Option<Key>)
    ensures key == KeyOf(e)
  {
    hide Swap32, Swap16, Lo16, Hi16, PktType;
    if PktType(e) != TYPE_IPV4_HNAPT && PktType(e) != TYPE_IPV6_5T { return None; }
    var ipProto := if e.w0 & IB1_UDP != 0 then IPPROTO_UDP else IPPROTO_TCP;
    if PktType(e) == TYPE_IPV4_HNAPT {
      return Some(Key(HTONS_IP, ipProto, Swap16(Hi16(e.w3)), Swap16(Lo16(e.w3)), Ipv4Addr(Swap32(e.w1)), Ipv4Addr(Swap32(e.w2))));
    }
    var src := ReadAddr([e.w1, e.w2, e.w3, e.w4]);
    var dst := ReadAddr([e.w5, e.w6, e.w7, e.w8]);
    key := Some(Key(HTONS_IPV6, ipProto, Swap16(Hi16(e.w9)), Swap16(Lo16(e.w9)), src, dst));
  }

  /** What the engine writes into a packet that hits a bound entry; IPv6 entries only route. */
  function HwRewrite(e: Foe, p: Packet): Packet
    requires p.Valid()
  {
    if PktType(e) == TYPE_IPV4_HNAPT then
      p.(eth := GetMac(e.w12, e.w13) + GetMac(e.w14, e.w15) + p.eth[12..],
         ip := Splice(p.ip, 12, BigEndian32(e.w5) + BigEndian32(e.w6)),
         l4 := Splice(p.l4, 0, BigEndian16(Hi16(e.w7)) + BigEndian16(Lo16(e.w7))))
    else
      p.(eth := GetMac(e.w16, e.w17) + GetMac(e.w18, e.w19) + p.eth[12..])
  }

  lemma BuiltIb1Bits(key: Key, out: Output, pktType: bv32)
    requires key.ipProto in {IPPROTO_TCP, IPPROTO_UDP} && pktType in {TYPE_IPV4_HNAPT, TYPE_IPV6_5T}
    ensures BuiltIb1(key, out, pktType) & IB1_PKT_TYPE == pktType
    ensures BuiltIb1(key, out, pktType) & IB1_STATE == INVALID
    ensures BuiltIb1(key, out, pktType) & IB1_UDP != 0 <==> key.ipProto == IPPROTO_UDP
  {}

  predicate FullTuple(key: Key) {
    && key.ipProto in {IPPROTO_TCP, IPPROTO_UDP}
    && (|| key.nProto == HTONS_IPV6
        || (key.nProto == HTONS_IP && key.src == Ipv4Addr(key.src.w0) && key.dst == Ipv4Addr(key.dst.w0)))
  }

  lemma KeyOfBuiltIpv4(data: FlowData, out: Output)
    requires FullTuple(data.tuple) && data.tuple.nProto == HTONS_IP
    ensures KeyOf(BuiltIpv4(data, out)) == Some(data.tuple) && StateOf(BuiltIpv4(data, out)) == INVALID
  {
    hide Lo16, Hi16, Pack16, Swap16, Swap32, BuiltIb1;
    var t := data.tuple;
    BuiltIb1Bits(t, out, TYPE_IPV4_HNAPT);
    HalvesOfPack(Swap16(t.dstPort), Swap16(t.srcPort));
    SwapTwice(t.src.w0, t.srcPort);
    SwapTwice(t.dst.w0, t.dstPort);
  }

  lemma SwapAddrTwice(a: Addr)
    ensures Addr(Swap32(Swap32(a.w0)), Swap32(Swap32(a.w1)), Swap32(Swap32(a.w2)), Swap32(Swap32(a.w3))) == a
  {
    SwapTwice(a.w0, 0);
    SwapTwice(a.w1, 0);
    SwapTwice(a.w2, 0);
    SwapTwice(a.w3, 0);
  }

  lemma KeyOfBuiltIpv6(data: FlowData, out: Output)
    requires FullTuple(data.tuple) && data.tuple.nProto == HTONS_IPV6
    ensures KeyOf(BuiltIpv6(data, out)) == Some(data.tuple) && StateOf(BuiltIpv6(data, out)) == INVALID
  {
    hide Lo16, Hi16, Pack16, Swap16, Swap32, BuiltIb1;
    var t := data.tuple;
    BuiltIb1Bits(t, out, TYPE_IPV6_5T);
    HalvesOfPack(Swap16(t.dstPort), Swap16(t.srcPort));
    SwapTwice(0, t.srcPort);
    SwapTwice(0, t.dstPort);
    SwapAddrTwice(t.src);
    SwapAddrTwice(t.dst);
  }

  /** The key read back from a prepared descriptor is the key of the flow data, for both families. */
  lemma KeyOfPrepared(data: FlowData, egress: Egress)
    requires Prepared(data, egress).Ok? && FullTuple(data.tuple)
    ensures KeyOf(Prepared(data, egress).value) == Some(data.tuple)
    ensures StateOf(Prepared(data, egress).value) == INVALID
  {
    hide KeyOf, BuiltIpv4, BuiltIpv6, StateOf;
    var out := ResolveOutput(data.link, egress).value;
    if data.tuple.nProto == HTONS_IP {
      KeyOfBuiltIpv4(data, out);
    } else {
      KeyOfBuiltIpv6(data, out);
    }
  }

  /** The entries hold the same tuple words for their common format. */
  predicate SameTupleWords(e: Foe, f: Foe) {
    && PktType(e) == PktType(f)
    && e.w1 == f.w1 && e.w2 == f.w2 && e.w3 == f.w3
    && (PktType(e) == TYPE_IPV6_5T ==>
          e.w4 == f.w4 && e.w5 == f.w5 && e.w6 == f.w6 && e.w7 == f.w7 && e.w8 == f.w8 && e.w9 == f.w9)
  }

  lemma Unswap(a: bv32, b: bv32)
    requires Swap32(a) == Swap32(b)
    ensures a == b
  {
    SwapTwice(a, 0);
    SwapTwice(b, 0);
  }

  lemma UnswapPorts(a: bv32, b: bv32)
    requires Swap16(Hi16(a)) == Swap16(Hi16(b)) && Swap16(Lo16(a)) == Swap16(Lo16(b))
    ensures a == b
  {
    SwapTwice(0, Hi16(a));
    SwapTwice(0, Hi16(b));
    SwapTwice(0, Lo16(a));
    SwapTwice(0, Lo16(b));
    PackOfHalves(a);
    PackOfHalves(b);
  }

  /** Equal keys mean equal format and tuple words. */
  lemma KeyDeterminesTuple(e: Foe, f: Foe)
    requires KeyOf(e).Some? && KeyOf(e) == KeyOf(f)
    ensures SameTupleWords(e, f)
  {
    hide Lo16, Hi16, Swap16, Swap32;
    Unswap(e.w1, f.w1);
    Unswap(e.w2, f.w2);
    if PktType(e) == TYPE_IPV4_HNAPT {
      UnswapPorts(e.w3, f.w3);
    } else {
      Unswap(e.w3, f.w3);
      Unswap(e.w4, f.w4);
      Unswap(e.w5, f.w5);
      Unswap(e.w6, f.w6);
      Unswap(e.w7, f.w7);
      Unswap(e.w8, f.w8);
      UnswapPorts(e.w9, f.w9);
    }
  }

  /** On IPv4 packets the prepared descriptor rewrites exactly what the flow data says. */
  lemma BuiltIpv4Rewrites(data: FlowData, out: Output, p: Packet)
    requires p.Valid() && p.proto == HTONS_IP && PktType(BuiltIpv4(data, out)) == TYPE_IPV4_HNAPT
    ensures HwRewrite(BuiltIpv4(data, out), p) == Rewrite(data, p)
  {
    hide Lo16, Hi16, Pack16, Swap16, Swap32, BuiltIb1, MacLow, MacHigh, GetMac, BigEndian32, BigEndian16, Bytes32;
    var n, eth, e := data.rewritten, data.link.eth, BuiltIpv4(data, out);
    assert GetMac(e.w12, e.w13) == eth[..6] by { MacRoundTrip(eth[..6], 0); }
    assert GetMac(e.w14, e.w15) == eth[6..] by { MacRoundTrip(eth[6..], BuiltPppoe(out)); }
    assert eth[..6] + eth[6..] == eth;
    BigEndianOfSwap(n.src.w0);
    BigEndianOfSwap(n.dst.w0);
    HalvesOfPack(Swap16(n.dstPort), Swap16(n.srcPort));
    BigEndianPorts(n.srcPort, n.dstPort);
    SpliceTwice(p.ip, 12, Bytes32(n.src.w0), Bytes32(n.dst.w0));
  }

  lemma BuiltIpv6Rewrites(data: FlowData, out: Output, p: Packet)
    requires Hits(p, data.tuple) && data.tuple.nProto == HTONS_IPV6
    requires data.rewritten == InitialData(data.tuple).rewritten
    requires PktType(BuiltIpv6(data, out)) == TYPE_IPV6_5T
    ensures HwRewrite(BuiltIpv6(data, out), p) == Rewrite(data, p)
  {
    hide Lo16, Hi16, Pack16, Swap16, Swap32, BuiltIb1, MacLow, MacHigh, GetMac, Load16, Half, Load32, Bytes32, BuiltIb2;
    var eth, e := data.link.eth, BuiltIpv6(data, out);
    assert GetMac(e.w16, e.w17) == eth[..6] by { MacRoundTrip(eth[..6], 0); }
    assert GetMac(e.w18, e.w19) == eth[6..] by { MacRoundTrip(eth[6..], BuiltPppoe(out)); }
    assert eth[..6] + eth[6..] == eth;
    BytesOfPorts(p.l4);
  }

  /** A prepared descriptor rewrites every packet of its flow exactly as the flow data says. */
  lemma PreparedRewrites(data: FlowData, egress: Egress, p: Packet)
    requires Prepared(data, egress).Ok? && FullTuple(data.tuple) && Hits(p, data.tuple)
    ensures HwRewrite(Prepared(data, egress).value, p) == Rewrite(data, p)
  {
    hide Lo16, Hi16, Pack16, Swap16, Swap32, BuiltIb1, HwRewrite, Rewrite;
    var t, out := data.tuple, ResolveOutput(data.link, egress).value;
    if t.nProto == HTONS_IP {
      BuiltIb1Bits(t, out, TYPE_IPV4_HNAPT);
      BuiltIpv4Rewrites(data, out, p);
    } else {
      BuiltIb1Bits(t, out, TYPE_IPV6_5T);
      BuiltIpv6Rewrites(data, out, p);
    }
  }
}
