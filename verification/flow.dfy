/** The generic offload layer's view of a flow: flower rule, parsed data and exact tuple key. */
module Flow {
  import opened Wire

  const IPPROTO_TCP: bv8 := 6
  const IPPROTO_UDP: bv8 := 17

  // Ether types as __be16 values of a little-endian host; HtonsConstants ties them to Swap16.
  const HTONS_IP: bv16 := 0x0008
  const HTONS_IPV6: bv16 := 0xdd86
  const HTONS_8021Q: bv16 := 0x0081

  /** RST and FIN in the TCP flags half-word, as a __be16 value. */
  const HTONS_RST_FIN: bv16 := 0x0500

  lemma HtonsConstants()
    ensures HTONS_IP == Swap16(0x0800) && HTONS_IPV6 == Swap16(0x86dd)
    ensures HTONS_8021Q == Swap16(0x8100) && HTONS_RST_FIN == Swap16(0x0004 | 0x0001)
  {}

  /** union ra_flow_addr: four memory words, of which IPv4 uses the first and leaves the rest zero. */
  datatype Addr = Addr(w0: bv32, w1: bv32, w2: bv32, w3: bv32)

  const ZERO_MACS: Bytes := [0, 0, 0, 0, 0, 0, 0, 0, 0, 0, 0, 0]

  /** h_dest (bytes 0 to 5) and h_source (bytes 6 to 11), adjacent as in struct ethhdr. */
  type Macs = b: Bytes | |b| == 12 witness ZERO_MACS

  /** struct ra_flow_key. Every 16- and 32-bit field holds its network-order memory image. */
  datatype Key = Key(nProto: bv16, ipProto: bv8, srcPort: bv16, dstPort: bv16, src: Addr, dst: Addr)

  datatype Vlan = Vlan(push: bool, pop: bool, proto: bv16, vid: bv16, prio: bv8)

  datatype Pppoe = Pppoe(push: bool, sid: bv16)

  type Device = nat

  /** The link-layer half of struct ra_flow_data: MAC rewrites, output device, encapsulation. */
  datatype Link = Link(eth: Macs, outDev: Option<Device>, vlan: Vlan, pppoe: Pppoe)

  /** The rewritten L3/L4 tuple of struct ra_flow_data. */
  datatype Nat = Nat(src: Addr, dst: Addr, srcPort: bv16, dstPort: bv16)

  /** struct ra_flow_data, with its original tuple grouped as the key that is later built from it. */
  datatype FlowData = FlowData(tuple: Key, rewritten: Nat, link: Link)

  const ZERO_ADDR := Addr(0, 0, 0, 0)
  const EMPTY_LINK := Link(ZERO_MACS, None, Vlan(false, false, 0, 0, 0), Pppoe(false, 0))

  // ---- The flower rule ----

  datatype MatchKey = Meta | Control | Basic | Ipv4Addrs | Ipv6Addrs | Ports | Tcp | OtherMatch(n: nat)

  /** A flower match: the dissector keys in use, and a key and mask for each field. */
  datatype Match = Match(
    usedKeys: set<MatchKey>,
    metaMasked: bool,                  // ingress_iftype or l2_miss is masked
    addrTypeMask: bv16, addrType: MatchKey,
    controlMasked: bool,               // thoff or a control flag is masked
    nProtoMask: bv16, nProto: bv16, ipProtoMask: bv8, ipProto: bv8,
    srcMask: Addr, src: Addr, dstMask: Addr, dst: Addr,
    srcPortMask: bv16, srcPort: bv16, dstPortMask: bv16, dstPort: bv16,
    tcpFlagsMask: bv16, tcpFlags: bv16)

  datatype HeaderType = EthHdr | Ip4Hdr | Ip6Hdr | TcpHdr | UdpHdr | OtherHdr

  datatype Csum = Ipv4Csum | TcpCsum | UdpCsum | OtherCsum

  datatype Action =
    | Mangle(htype: HeaderType, offset: nat, mask: bv32, val: bv32)
    | Redirect(dev: Option<Device>)
    | CsumUpdate(flags: set<Csum>)
    | VlanPush(proto: bv16, vid: bv16, prio: bv8)
    | VlanPop
    | PppoePush(sid: bv16)
    | OtherAction

  datatype Rule = Rule(chain: nat, flow: Match, hwStatsOk: bool, actions: seq<Action>)

  // ---- Parsing the match ----

  const SUPPORTED_KEYS := {Meta, Control, Basic, Ipv4Addrs, Ipv6Addrs, Ports, Tcp}

  const ALL_ONES := Addr(0xffff_ffff, 0xffff_ffff, 0xffff_ffff, 0xffff_ffff)

  /** The sixteen bytes of the address union in memory. */
  function AddrBytes(a: Addr): (r: Bytes)
    ensures |r| == 16
  {
    Bytes32(a.w0) + Bytes32(a.w1) + Bytes32(a.w2) + Bytes32(a.w3)
  }

  function Ipv4Addr(w: bv32): Addr { Addr(w, 0, 0, 0) }

  /** The address step of the match parser: the family must agree with the dissector and be exact. */
  function ParseAddresses(m: Match): Result<(Addr, Addr)> {
    if m.nProto == HTONS_IP then
      if m.addrType != Ipv4Addrs || Ipv4Addrs !in m.usedKeys then Err(EOPNOTSUPP)
      else if m.srcMask.w0 != 0xffff_ffff || m.dstMask.w0 != 0xffff_ffff then Err(EOPNOTSUPP)
      else Ok((Ipv4Addr(m.src.w0), Ipv4Addr(m.dst.w0)))
    else if m.nProto == HTONS_IPV6 then
      if m.addrType != Ipv6Addrs || Ipv6Addrs !in m.usedKeys then Err(EOPNOTSUPP)
      else if m.srcMask != ALL_ONES || m.dstMask != ALL_ONES then Err(EOPNOTSUPP)
      else Ok((m.src, m.dst))
    else
      Err(EOPNOTSUPP)
  }

  /** The match parser: the exact original tuple, or the reason why the rule has none. */
  function ParseMatch(m: Match): Result<Key> {
    if !(m.usedKeys <= SUPPORTED_KEYS) then Err(EOPNOTSUPP)
    else if !({Meta, Control, Basic, Ports} <= m.usedKeys) then Err(EOPNOTSUPP)
    else if m.metaMasked then Err(EOPNOTSUPP)
    else if m.addrTypeMask != 0xffff then Err(EOPNOTSUPP)
    else if m.controlMasked then Err(EOPNOTSUPP)
    else if m.nProtoMask != 0xffff || m.ipProtoMask != 0xff then Err(EOPNOTSUPP)
    else if m.ipProto != IPPROTO_TCP && m.ipProto != IPPROTO_UDP then Err(EOPNOTSUPP)
    else match ParseAddresses(m)
      case Err(e) => Err(e)
      case Ok((src, dst)) =>
        if m.srcPortMask != 0xffff || m.dstPortMask != 0xffff then Err(EOPNOTSUPP)
        else if m.ipProto == IPPROTO_TCP && Tcp !in m.usedKeys then Err(EOPNOTSUPP)
        else if m.ipProto == IPPROTO_TCP && (m.tcpFlags != 0 || m.tcpFlagsMask != HTONS_RST_FIN) then Err(EOPNOTSUPP)
        else if m.ipProto == IPPROTO_UDP && Tcp in m.usedKeys then Err(EOPNOTSUPP)
        else Ok(Key(m.nProto, m.ipProto, m.srcPort, m.dstPort, src, dst))
  }

  /** Before any action, the rewritten tuple is the original one and there is no link-layer rewrite. */
  function InitialData(key: Key): FlowData {
    FlowData(key, Nat(key.src, key.dst, key.srcPort, key.dstPort), EMPTY_LINK)
  }

  // ---- Parsing the actions ----

  /** Which bytes of an accepted Ethernet mangle are copied, and where to: (offset, bytes). */
  function EthWindow(a: Action): (r: Option<(nat, Bytes)>)
    requires a.Mangle?
    ensures r.Some? ==> r.value.0 + |r.value.1| <= 12
  {
    if a.offset == 0 then
      if a.mask != 0 then None else Some((0, Bytes32(a.val)))
    else if a.offset == 4 then
      if a.mask == 0xffff_0000 then Some((4, [Byte0(a.val), Byte1(a.val)]))
      else if a.mask == 0x0000_ffff then Some((6, [Byte2(a.val), Byte3(a.val)]))
      else None
    else if a.offset == 8 then
      if a.mask != 0 then None else Some((8, Bytes32(a.val)))
    else None
  }

  function MangleEth(a: Action, eth: Macs): Result<Macs>
    requires a.Mangle?
  {
    match EthWindow(a)
    case None => Err(EOPNOTSUPP)
    case Some((at, bytes)) => Ok(Splice(eth, at, bytes))
  }

  /** Offsets 12 and 16 are the source and destination address of section 3.1 of RFC 791. */
  function MangleIpv4(a: Action, key: Key, rewritten: Nat): Result<Nat>
    requires a.Mangle?
  {
    if key.nProto != HTONS_IP then Err(EOPNOTSUPP)
    else if a.mask != 0 then Err(EOPNOTSUPP)
    else if a.offset == 12 then Ok(rewritten.(src := rewritten.src.(w0 := a.val)))
    else if a.offset == 16 then Ok(rewritten.(dst := rewritten.dst.(w0 := a.val)))
    else Err(EOPNOTSUPP)
  }

  function ManglePorts(a: Action, rewritten: Nat): Result<Nat>
    requires a.Mangle?
  {
    var v := Swap32(a.val);
    if a.offset != 0 then Err(EOPNOTSUPP)
    else if a.mask == !Swap32(0xffff_0000) then Ok(rewritten.(srcPort := Swap16(Hi16(v))))
    else if a.mask == !Swap32(0x0000_ffff) then Ok(rewritten.(dstPort := Swap16(Lo16(v))))
    else Err(EOPNOTSUPP)
  }

  function SupportedCsums(key: Key): set<Csum> {
    (if key.nProto == HTONS_IP then {Ipv4Csum} else {})
    + (if key.ipProto == IPPROTO_TCP then {TcpCsum} else {UdpCsum})
  }

  /** What the first pass carries along: the link half and whether a checksum action was seen. */
  datatype Gathered = Gathered(link: Link, csumSeen: bool)

  /** One action of the first pass: topology, encapsulation and L2 rewrites. */
  function GatherOne(a: Action, key: Key, g: Gathered): Result<Gathered> {
    var link := g.link;
    match a
    case Mangle(htype, _, _, _) =>
      if htype != EthHdr then Ok(g)
      else (match MangleEth(a, link.eth)
            case Err(e) => Err(e)
            case Ok(eth) => Ok(g.(link := link.(eth := eth))))
    case Redirect(dev) =>
      if dev.None? || link.outDev.Some? then Err(EOPNOTSUPP)
      else Ok(g.(link := link.(outDev := dev)))
    case CsumUpdate(flags) =>
      if g.csumSeen then Err(EOPNOTSUPP)
      else if !(flags <= SupportedCsums(key)) then Err(EOPNOTSUPP)
      else Ok(g.(csumSeen := true))
    case VlanPush(proto, vid, prio) =>
      if link.vlan.push then Err(EOPNOTSUPP)
      else Ok(g.(link := link.(vlan := Vlan(true, link.vlan.pop, proto, vid, prio))))
    case VlanPop =>
      if link.vlan.pop then Err(EOPNOTSUPP)
      else Ok(g.(link := link.(vlan := link.vlan.(pop := true))))
    case PppoePush(sid) =>
      if link.pppoe.push then Err(EOPNOTSUPP)
      else Ok(g.(link := link.(pppoe := Pppoe(true, sid))))
    case OtherAction => Err(EOPNOTSUPP)
  }

  /** One action of the second pass: L3 and L4 rewrites on top of the complete original tuple. */
  function TranslateOne(a: Action, key: Key, rewritten: Nat): Result<Nat> {
    if !a.Mangle? then Ok(rewritten)
    else match a.htype
      case EthHdr => Ok(rewritten)
      case Ip4Hdr => MangleIpv4(a, key, rewritten)
      case Ip6Hdr => Err(EOPNOTSUPP)
      case TcpHdr => if key.ipProto != IPPROTO_TCP then Err(EOPNOTSUPP) else ManglePorts(a, rewritten)
      case UdpHdr => if key.ipProto != IPPROTO_UDP then Err(EOPNOTSUPP) else ManglePorts(a, rewritten)
      case OtherHdr => Err(EOPNOTSUPP)
  }

  /** The first pass over the remaining actions. */
  ghost function Gather(acts: seq<Action>, key: Key, g: Gathered): Result<Gathered> {
    if acts == [] then Ok(g)
    else match GatherOne(acts[0], key, g)
      case Err(e) => Err(e)
      case Ok(g') => Gather(acts[1..], key, g')
  }

  /** The second pass over the remaining actions. */
  ghost function Translate(acts: seq<Action>, key: Key, rewritten: Nat): Result<Nat> {
    if acts == [] then Ok(rewritten)
    else match TranslateOne(acts[0], key, rewritten)
      case Err(e) => Err(e)
      case Ok(n) => Translate(acts[1..], key, n)
  }

  ghost function ParsedActions(rule: Rule, data: FlowData): Result<FlowData> {
    if rule.actions == [] then Err(EINVAL)
    else if !rule.hwStatsOk then Err(EOPNOTSUPP)
    else match Gather(rule.actions, data.tuple, Gathered(data.link, false))
      case Err(e) => Err(e)
      case Ok(g) =>
        if g.link.outDev.None? then Err(EOPNOTSUPP)
        else match Translate(rule.actions, data.tuple, data.rewritten)
          case Err(e) => Err(e)
          case Ok(n) => Ok(FlowData(data.tuple, n, g.link))
  }

  /** The two loops of the action parser compute exactly the two passes, with the first error met. */
  method ParseActions(rule: Rule, data: FlowData) returns (r: Result<FlowData>)
    ensures r == ParsedActions(rule, data)
  {
    var acts, key := rule.actions, data.tuple;
    if acts == [] { return Err(EINVAL); }
    if !rule.hwStatsOk { return Err(EOPNOTSUPP); }
    var g := Gathered(data.link, false);
    for i := 0 to |acts|
      invariant Gather(acts, key, Gathered(data.link, false)) == Gather(acts[i..], key, g)
    {
      assert acts[i..][0] == acts[i] && acts[i..][1..] == acts[i + 1..];
      var step := GatherOne(acts[i], key, g);
      if step.Err? { return Err(step.error); }
      g := step.value;
    }
    if g.link.outDev.None? { return Err(EOPNOTSUPP); }
    var n := data.rewritten;
    for i := 0 to |acts|
      invariant Translate(acts, key, data.rewritten) == Translate(acts[i..], key, n)
    {
      assert acts[i..][0] == acts[i] && acts[i..][1..] == acts[i + 1..];
      var step := TranslateOne(acts[i], key, n);
      if step.Err? { return Err(step.error); }
      n := step.value;
    }
    r := Ok(FlowData(key, n, g.link));
  }

  /** is_valid_ether_addr: not a group address and not all zero. */
  predicate ValidEtherAddr(m: Bytes)
    requires |m| == 6
  {
    m[0] & 1 == 0 && m != [0, 0, 0, 0, 0, 0]
  }

  /** The generic half of a replace: everything between the cookie lookup and prepare(). */
  ghost function Parsed(rule: Rule): Result<FlowData> {
    if rule.chain != 0 then Err(EOPNOTSUPP)
    else match ParseMatch(rule.flow)
      case Err(e) => Err(e)
      case Ok(key) =>
        match ParsedActions(rule, InitialData(key))
        case Err(e) => Err(e)
        case Ok(data) =>
          if !ValidEtherAddr(data.link.eth[6..]) || !ValidEtherAddr(data.link.eth[..6]) then Err(EINVAL) else Ok(data)
  }

  method Parse(rule: Rule) returns (r: Result<FlowData>)
    ensures r == Parsed(rule)
  {
    if rule.chain != 0 { return Err(EOPNOTSUPP); }
    var key := ParseMatch(rule.flow);
    if key.Err? { return Err(key.error); }
    r := ParseActions(rule, InitialData(key.value));
    if r.Err? { return; }
    if !ValidEtherAddr(r.value.link.eth[6..]) || !ValidEtherAddr(r.value.link.eth[..6]) { r := Err(EINVAL); }
  }
}
