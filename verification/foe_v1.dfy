/** The 64-byte PPEv1 descriptor: MAC packing, output resolution, builder, key and hardware rewrite. */
module FoeV1 {
  import opened Wire
  import opened Flow
  import opened Foe
  import opened Topology
  import opened Pedit

  const IB1_TIMESTAMP: bv32 := 0x0000_ffff
  const IB1_KEEPALIVE: bv32 := 0x0200_0000
  const IB1_PKT_TYPE: bv32 := 0x0c00_0000

  // ---- MAC packing: bytes 1, 0, 7, 6, 5, 4 of an eight-byte window; bytes 2 and 3 hold another field ----

  function WithByte(w: bv32, k: nat, b: bv8): bv32 {
    Word(if k == 0 then b else Byte0(w), if k == 1 then b else Byte1(w),
         if k == 2 then b else Byte2(w), if k == 3 then b else Byte3(w))
  }

  function MacHigh(a: bv8, b: bv8, half: bv16): bv32 { Pack16(Half(b, a), half) }

  function MacLow(c: bv8, d: bv8, e: bv8, f: bv8): bv32 { Word(f, e, d, c) }

  /** set_mac stores the address byte by byte and leaves the half-word between its two parts alone. */
  method SetMac(hi: bv32, lo: bv32, mac: Bytes) returns (hi': bv32, lo': bv32)
    requires |mac| == 6
    ensures hi' == MacHigh(mac[0], mac[1], Hi16(hi)) && lo' == MacLow(mac[2], mac[3], mac[4], mac[5])
  {
    hi' := WithByte(hi, 1, mac[0]);
    hi' := WithByte(hi', 0, mac[1]);
    lo' := WithByte(lo, 3, mac[2]);
    lo' := WithByte(lo', 2, mac[3]);
    lo' := WithByte(lo', 1, mac[4]);
    lo' := WithByte(lo', 0, mac[5]);
    TwoBytes(hi, mac[0], mac[1]);
    FourBytes(lo, mac[2], mac[3], mac[4], mac[5]);
  }

  lemma TwoBytes(w: bv32, a: bv8, b: bv8)
    ensures WithByte(WithByte(w, 1, a), 0, b) == MacHigh(a, b, Hi16(w))
  {}

  lemma FourBytes(w: bv32, a: bv8, b: bv8, c: bv8, d: bv8)
    ensures WithByte(WithByte(WithByte(WithByte(w, 3, a), 2, b), 1, c), 0, d) == MacLow(a, b, c, d)
  {}

  function GetMac(hi: bv32, lo: bv32): (mac: Bytes)
    ensures |mac| == 6
  {
    [Byte1(hi), Byte0(hi), Byte3(lo), Byte2(lo), Byte1(lo), Byte0(lo)]
  }

  /** get_mac undoes set_mac, whatever is stored in the half-word between the two parts. */
  lemma MacRoundTrip(mac: Bytes, half: bv16)
    requires |mac| == 6
    ensures GetMac(MacHigh(mac[0], mac[1], half), MacLow(mac[2], mac[3], mac[4], mac[5])) == mac
  {
    MacHighBytes(mac[0], mac[1], half);
    BytesOfWord(mac[5], mac[4], mac[3], mac[2]);
  }

  lemma MacHighBytes(a: bv8, b: bv8, half: bv16)
    ensures Byte1(MacHigh(a, b, half)) == a && Byte0(MacHigh(a, b, half)) == b
  {}

  // ---- Output resolution ----

  datatype VlanAction = Keep | Modify | Insert | Delete

  function Code(a: VlanAction): bv32 {
    match a case Keep => 0 case Modify => 1 case Insert => 2 case Delete => 3
  }

  datatype Output = Output(
    vlan1: bv16, vlan1Action: VlanAction, vlan2: bv16, vlan2Action: VlanAction, pppoe: Option<bv16>, dp: bv32)

  /** PCP 7 marks the switch's internal tags. */
  function InternalTci(vid: bv16): bv16 { vid | VLAN_PRIO_MASK }

  /** Destination port and smart-VLAN operations. */
  function ResolveVlan(link: Link, egress: Egress): Result<Output> {
    var push, pop, vid := link.vlan.push, link.vlan.pop, link.vlan.vid;
    match egress
    case DsaPort(ralinkTag, _, bridge, standaloneVid) =>
      if !ralinkTag then Err(EOPNOTSUPP)
      else (match bridge
        case VlanAware(pvid) =>
          if push then Ok(Output(vid, if pop then Modify else Insert, 0, Delete, None, 1))
          else if pvid.Err? then Err(pvid.error)
          else Ok(Output(pvid.value, if pop then Delete else Insert, 0, Keep, None, 1))
        case VlanUnaware(bridgeVid) => Ok(Output(InternalTci(bridgeVid), Insert, 0, Keep, None, 1))
        case NoBridge => Ok(Output(InternalTci(standaloneVid), Insert, 0, Keep, None, 2)))
    case NotDsa(isFrameEngine) =>
      if !isFrameEngine then Err(EOPNOTSUPP)
      else if push then Ok(Output(vid, if pop then Modify else Insert, 0, Keep, None, 1))
      else Ok(Output(0, if pop then Delete else Keep, 0, Keep, None, 1))
  }

  function ResolveOutput(link: Link, egress: Egress): Result<Output> {
    if link.vlan.push && link.vlan.proto != HTONS_8021Q then Err(EOPNOTSUPP)
    else match ResolveVlan(link, egress)
      case Err(e) => Err(e)
      case Ok(out) => Ok(out.(pppoe := if link.pppoe.push then Some(link.pppoe.sid) else None))
  }

  // ---- The builder ----

  function BuiltIb1(key: Key, out: Output): bv32 {
    (if key.ipProto == IPPROTO_UDP then IB1_UDP else 0)
    | (Code(out.vlan1Action) << 16) | (Code(out.vlan2Action) << 18)
    | (Code(if out.pppoe.Some? then Insert else Delete) << 22)
    | IB1_TTL | IB1_KEEPALIVE
  }

  function BuiltVlan1(out: Output): bv16 {
    if out.vlan1Action == Insert || out.vlan1Action == Modify then out.vlan1 else 0
  }

  function BuiltVlan2(out: Output): bv16 {
    if out.vlan2Action == Insert || out.vlan2Action == Modify then out.vlan2 else 0
  }

  function BuiltPppoe(out: Output): bv16 { if out.pppoe.Some? then out.pppoe.value else 0 }

  /** FD with the destination port; every other policy field stays zero. */
  function BuiltIb2(out: Output): bv32 { 1 | (out.dp << 1) }

  /** The finished descriptor of an IPv4 flow, word by word. */
  function Built(data: FlowData, out: Output): Foe {
    var t, n, eth := data.tuple, data.rewritten, data.link.eth;
    ZERO_FOE.(
      w0 := BuiltIb1(t, out),
      w1 := Swap32(t.src.w0), w2 := Swap32(t.dst.w0), w3 := Pack16(Swap16(t.dstPort), Swap16(t.srcPort)),
      w4 := BuiltIb2(out),
      w5 := Swap32(n.src.w0), w6 := Swap32(n.dst.w0), w7 := Pack16(Swap16(n.dstPort), Swap16(n.srcPort)),
      w8 := MacHigh(eth[0], eth[1], BuiltVlan1(out)), w9 := MacLow(eth[2], eth[3], eth[4], eth[5]),
      w10 := MacHigh(eth[6], eth[7], BuiltPppoe(out)), w11 := MacLow(eth[8], eth[9], eth[10], eth[11]),
      w13 := Pack16(BuiltVlan2(out), 0))
  }

  /** The builder fills a zeroed descriptor field by field. */
  method Build(data: FlowData, out: Output) returns (foe: Foe)
    ensures foe == Built(data, out)
  {
    hide BuiltIb1, BuiltIb2, Pack16, Swap16, Swap32, MacHigh, MacLow, BuiltVlan1, BuiltVlan2, BuiltPppoe;
    foe := BuildTuples(data.tuple, data.rewritten);
    foe := foe.(w0 := BuiltIb1(data.tuple, out));
    foe := BuildEncap(foe, data.link.eth, out);
    foe := foe.(w4 := BuiltIb2(out));
  }

  /** Original and rewritten tuple in host order; two ports share a word. */
  method BuildTuples(t: Key, n: Nat) returns (foe: Foe)
    ensures foe == ZERO_FOE.(
      w1 := Swap32(t.src.w0), w2 := Swap32(t.dst.w0), w3 := Pack16(Swap16(t.dstPort), Swap16(t.srcPort)),
      w5 := Swap32(n.src.w0), w6 := Swap32(n.dst.w0), w7 := Pack16(Swap16(n.dstPort), Swap16(n.srcPort)))
  {
    hide Lo16, Hi16, Pack16, Swap16, Swap32;
    foe := ZERO_FOE;
    var sport, dport := Swap16(t.srcPort), Swap16(t.dstPort);
    foe := foe.(w1 := Swap32(t.src.w0));
    foe := foe.(w2 := Swap32(t.dst.w0));
    HalvesOfPack(Lo16(foe.w3), sport);
    foe := foe.(w3 := Pack16(Lo16(foe.w3), sport));
    foe := foe.(w3 := Pack16(dport, Hi16(foe.w3)));
    sport, dport := Swap16(n.srcPort), Swap16(n.dstPort);
    foe := foe.(w5 := Swap32(n.src.w0));
    foe := foe.(w6 := Swap32(n.dst.w0));
    HalvesOfPack(Lo16(foe.w7), sport);
    foe := foe.(w7 := Pack16(Lo16(foe.w7), sport));
    foe := foe.(w7 := Pack16(dport, Hi16(foe.w7)));
  }

  /** The MAC addresses first, then the fields that are interleaved with them. */
  method BuildEncap(foe0: Foe, eth: Macs, out: Output) returns (foe: Foe)
    requires foe0.w8 == 0 && foe0.w10 == 0 && foe0.w13 == 0
    ensures foe == foe0.(
      w8 := MacHigh(eth[0], eth[1], BuiltVlan1(out)), w9 := MacLow(eth[2], eth[3], eth[4], eth[5]),
      w10 := MacHigh(eth[6], eth[7], BuiltPppoe(out)), w11 := MacLow(eth[8], eth[9], eth[10], eth[11]),
      w13 := Pack16(BuiltVlan2(out), 0))
  {
    hide MacLow, Lo16, Hi16, Pack16, Half;
    ZeroHalves();
    HalvesOfPack(Half(eth[1], eth[0]), 0);
    HalvesOfPack(Half(eth[7], eth[6]), 0);
    var dmac, dmacLow := SetMac(foe0.w8, foe0.w9, eth[..6]);
    var smac, smacLow := SetMac(foe0.w10, foe0.w11, eth[6..]);
    var vlan2 := foe0.w13;
    if out.vlan1Action == Insert || out.vlan1Action == Modify {
      dmac := Pack16(Lo16(dmac), out.vlan1);
    }
    if out.vlan2Action == Insert || out.vlan2Action == Modify {
      vlan2 := Pack16(out.vlan2, Hi16(vlan2));
    }
    if out.pppoe.Some? {
      smac := Pack16(Lo16(smac), out.pppoe.value);
    }
    foe := foe0.(w8 := dmac, w9 := dmacLow, w10 := smac, w11 := smacLow, w13 := vlan2);
  }

  lemma ZeroHalves()
    ensures Hi16(0) == 0 && Pack16(0, 0) == 0
  {}

  // ---- Key and rewrite ----

  /** The tuple of a learned or bound entry; only the HNAPT packet type is handled. */
  function KeyOf(e: Foe): Option<Key> {
    if e.w0 & IB1_PKT_TYPE != 0 then None
    else Some(Key(HTONS_IP, if e.w0 & IB1_UDP != 0 then IPPROTO_UDP else IPPROTO_TCP,
                  Swap16(Hi16(e.w3)), Swap16(Lo16(e.w3)),
                  Ipv4Addr(Swap32(e.w1)), Ipv4Addr(Swap32(e.w2))))
  }

  /** What the engine writes into the headers of a packet that hits a bound IPv4 entry. */
  function HwRewrite(e: Foe, p: Packet): Packet
    requires p.Valid()
  {
    p.(eth := GetMac(e.w8, e.w9) + GetMac(e.w10, e.w11) + p.eth[12..],
       ip := Splice(p.ip, 12, BigEndian32(e.w5) + BigEndian32(e.w6)),
       l4 := Splice(p.l4, 0, BigEndian16(Hi16(e.w7)) + BigEndian16(Lo16(e.w7))))
  }

  lemma BuiltIb1Bits(key: Key, out: Output)
    requires key.ipProto in {IPPROTO_TCP, IPPROTO_UDP}
    ensures BuiltIb1(key, out) & IB1_PKT_TYPE == 0 && BuiltIb1(key, out) & IB1_STATE == INVALID
    ensures BuiltIb1(key, out) & IB1_UDP != 0 <==> key.ipProto == IPPROTO_UDP
  {}

  /** The key read back from a built descriptor is the key of the flow data. */
  lemma KeyOfBuilt(data: FlowData, out: Output)
    requires data.tuple.nProto == HTONS_IP && data.tuple.ipProto in {IPPROTO_TCP, IPPROTO_UDP}
    requires data.tuple.src == Ipv4Addr(data.tuple.src.w0) && data.tuple.dst == Ipv4Addr(data.tuple.dst.w0)
    ensures KeyOf(Built(data, out)) == Some(data.tuple) && StateOf(Built(data, out)) == INVALID
  {
    hide Lo16, Hi16, Pack16, Swap16, Swap32, BuiltIb1;
    var t := data.tuple;
    BuiltIb1Bits(t, out);
    HalvesOfPack(Swap16(t.dstPort), Swap16(t.srcPort));
    SwapTwice(t.src.w0, t.srcPort);
    SwapTwice(t.dst.w0, t.dstPort);
  }

  /** Equal keys mean equal tuple words, so storing the learned tuple over the template's changes nothing. */
  lemma KeyDeterminesTuple(e: Foe, f: Foe)
    requires KeyOf(e).Some? && KeyOf(e) == KeyOf(f)
    ensures e.w1 == f.w1 && e.w2 == f.w2 && e.w3 == f.w3
  {
    hide Lo16, Hi16, Pack16, Swap16, Swap32;
    SwapTwice(e.w1, Hi16(e.w3));
    SwapTwice(e.w2, Lo16(e.w3));
    SwapTwice(f.w1, Hi16(f.w3));
    SwapTwice(f.w2, Lo16(f.w3));
    PackOfHalves(e.w3);
    PackOfHalves(f.w3);
  }

  /** On the packets of an IPv4 flow the built descriptor rewrites exactly what the flow data says. */
  lemma BuiltRewrites(data: FlowData, out: Output, p: Packet)
    requires p.Valid() && p.proto == HTONS_IP
    ensures HwRewrite(Built(data, out), p) == Rewrite(data, p)
  {
    hide Lo16, Hi16, Pack16, Swap16, Swap32, BuiltIb1, MacLow, MacHigh, GetMac, BigEndian32, BigEndian16, Bytes32;
    var n, eth := data.rewritten, data.link.eth;
    assert GetMac(Built(data, out).w8, Built(data, out).w9) == eth[..6] by { MacRoundTrip(eth[..6], BuiltVlan1(out)); }
    assert GetMac(Built(data, out).w10, Built(data, out).w11) == eth[6..] by { MacRoundTrip(eth[6..], BuiltPppoe(out)); }
    assert eth[..6] + eth[6..] == eth;
    BigEndianOfSwap(n.src.w0);
    BigEndianOfSwap(n.dst.w0);
    HalvesOfPack(Swap16(n.dstPort), Swap16(n.srcPort));
    BigEndianPorts(n.srcPort, n.dstPort);
    SpliceTwice(p.ip, 12, Bytes32(n.src.w0), Bytes32(n.dst.w0));
  }
}
