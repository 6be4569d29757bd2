/** What a flower rule means: its mangle actions as 32-bit pedit edits on packet bytes. */
module Pedit {
  import opened Wire
  import opened Flow

  /** A packet as its Ethernet, IP and transport header bytes, and the ether type of the IP header. */
  datatype Packet = Packet(proto: bv16, eth: Bytes, ip: Bytes, l4: Bytes) {
    predicate Valid() { |eth| >= 14 && |ip| >= 20 && |l4| >= 4 && (proto == HTONS_IPV6 ==> |ip| >= 40) }
  }

  /** One pedit edit: keep the bits under the mask, then exclusive-or the value in. */
  function Edit(b: Bytes, off: nat, mask: bv32, val: bv32): (r: Bytes)
    ensures |r| == |b|
  {
    if off + 4 <= |b| then Store32(b, off, EditedWord(Load32(b, off), mask, val)) else b
  }

  function ApplyOne(a: Action, p: Packet): (r: Packet)
    ensures p.Valid() ==> r.Valid()
  {
    if !a.Mangle? then p
    else match a.htype
      case EthHdr => p.(eth := Edit(p.eth, a.offset, a.mask, a.val))
      case Ip4Hdr => p.(ip := Edit(p.ip, a.offset, a.mask, a.val))
      case Ip6Hdr => p.(ip := Edit(p.ip, a.offset, a.mask, a.val))
      case TcpHdr => p.(l4 := Edit(p.l4, a.offset, a.mask, a.val))
      case UdpHdr => p.(l4 := Edit(p.l4, a.offset, a.mask, a.val))
      case OtherHdr => p
  }

  /** The header rewrite a rule asks for: its edits one after another, so the last write wins. */
  ghost function Apply(acts: seq<Action>, p: Packet): (r: Packet)
    ensures p.Valid() ==> r.Valid()
  {
    if acts == [] then p else Apply(acts[1..], ApplyOne(acts[0], p))
  }

  // ---- The tuple of a packet ----

  /** Section 3.1 of RFC 791 for IPv4, section 3 of RFC 8200 for IPv6, ports as in RFC 768 and RFC 9293. */
  function PacketKey(p: Packet): Key
    requires p.Valid()
  {
    if p.proto == HTONS_IPV6 then
      Key(p.proto, p.ip[6], Load16(p.l4, 0), Load16(p.l4, 2),
          Addr(Load32(p.ip, 8), Load32(p.ip, 12), Load32(p.ip, 16), Load32(p.ip, 20)),
          Addr(Load32(p.ip, 24), Load32(p.ip, 28), Load32(p.ip, 32), Load32(p.ip, 36)))
    else
      Key(p.proto, p.ip[9], Load16(p.l4, 0), Load16(p.l4, 2),
          Ipv4Addr(Load32(p.ip, 12)), Ipv4Addr(Load32(p.ip, 16)))
  }

  // ---- What parsed flow data means ----

  /** The rewrite described by parsed data: both MAC addresses, and the new IPv4 addresses and ports. */
  function Rewrite(data: FlowData, p: Packet): (r: Packet)
    requires p.Valid()
  {
    var n := data.rewritten;
    p.(eth := data.link.eth + p.eth[12..],
       ip := if p.proto == HTONS_IP then Store32(Store32(p.ip, 12, n.src.w0), 16, n.dst.w0) else p.ip,
       l4 := Store32(p.l4, 0, Pack16(n.srcPort, n.dstPort)))
  }

  // ---- Conditions on a rule that a caller can check ----

  /** The edit replaces byte i of the two MAC addresses. */
  predicate Covers(a: Action, i: nat) {
    && a.Mangle? && a.htype == EthHdr
    && match EthWindow(a)
       case None => false
       case Some((at, bytes)) => at <= i < at + |bytes|
  }

  predicate CoveredAt(acts: seq<Action>, i: nat) { exists a :: a in acts && Covers(a, i) }

  /** The mangles replace all twelve MAC bytes. */
  predicate Covered(acts: seq<Action>) { forall i :: 0 <= i < 12 ==> CoveredAt(acts, i) }

  /** The value's byte at MAC byte i: where the mangle keeps byte i, the edit exclusive-ors it in. */
  function Residue(a: Action, i: nat): bv8
    requires a.Mangle?
  {
    if a.offset <= i < a.offset + 4 then ByteOf(a.val, i - a.offset) else 0
  }

  /** What the edits leave in MAC byte i on top of the last value written to it: the exclusive-or of the value
      bits under kept masks since then. `d` is what was there before. */
  function Dirt(acts: seq<Action>, i: nat, d: bv8): bv8 {
    if acts == [] then d
    else
      var a := acts[0];
      Dirt(acts[1..], i, if Covers(a, i) then 0 else if a.Mangle? && a.htype == EthHdr then Xor8(d, Residue(a, i)) else d)
  }

  predicate IsPortMangle(a: Action) { a.Mangle? && (a.htype == TcpHdr || a.htype == UdpHdr) }

  predicate NamesSource(a: Action)
    requires a.Mangle?
  {
    a.mask == 0xffff_0000
  }

  /** The same for the two ports: a mangle names one of them and keeps the other. */
  function SourceDirt(acts: seq<Action>, d: bv16): bv16 {
    if acts == [] then d
    else
      var a := acts[0];
      SourceDirt(acts[1..], if !IsPortMangle(a) then d else if NamesSource(a) then 0 else Xor16(d, Lo16(a.val)))
  }

  function DestinationDirt(acts: seq<Action>, d: bv16): bv16 {
    if acts == [] then d
    else
      var a := acts[0];
      DestinationDirt(acts[1..], if !IsPortMangle(a) then d else if NamesSource(a) then Xor16(d, Hi16(a.val)) else 0)
  }

  /** No value bit under a kept mask survives in the MAC addresses or the ports. */
  predicate Settled(acts: seq<Action>) {
    && (forall i :: 0 <= i < 12 ==> Dirt(acts, i, 0) == 0)
    && SourceDirt(acts, 0) == 0 && DestinationDirt(acts, 0) == 0
  }

  // ---- One edit ----

  lemma ByteOfLoad(b: Bytes, i: nat, k: nat)
    requires i + 4 <= |b| && k < 4
    ensures ByteOf(Load32(b, i), k) == b[i + k]
  {
    BytesOfWord(b[i], b[i + 1], b[i + 2], b[i + 3]);
  }

  /** An edit changes four bytes, each by its own byte of mask and value. */
  lemma EditAt(b: Bytes, off: nat, mask: bv32, val: bv32, k: nat)
    requires off + 4 <= |b| && k < 4
    ensures Edit(b, off, mask, val)[off + k] == Xor8(And8(b[off + k], ByteOf(mask, k)), ByteOf(val, k))
  {
    hide Byte0, Byte1, Byte2, Byte3, Load32, And8, Xor8, EditedWord;
    var w := EditedWord(Load32(b, off), mask, val);
    assert Edit(b, off, mask, val)[off + k] == Bytes32(w)[k] == ByteOf(w, k);
    EditIsBytewise(Load32(b, off), mask, val, k);
    ByteOfLoad(b, off, k);
  }

  lemma BytesOfLoad(b: Bytes, i: nat)
    requires i + 4 <= |b|
    ensures var w := Load32(b, i);
            Byte0(w) == b[i] && Byte1(w) == b[i + 1] && Byte2(w) == b[i + 2] && Byte3(w) == b[i + 3]
  {
    BytesOfWord(b[i], b[i + 1], b[i + 2], b[i + 3]);
  }

  lemma HalfMasks(k: nat)
    requires k < 4
    ensures ByteOf(0, k) == 0
    ensures ByteOf(0xffff_0000, k) == if k < 2 then 0 else 0xff
    ensures ByteOf(0x0000_ffff, k) == if k < 2 then 0xff else 0
  {}

  // ---- The Ethernet pass ----

  /** The driver copies the value's bytes where the mask has zero bytes, and keeps the others. */
  lemma WindowByte(a: Action, i: nat)
    requires a.Mangle? && a.htype == EthHdr && EthWindow(a).Some? && i < 12
    ensures a.offset + 4 <= 12
    ensures a.offset <= i < a.offset + 4 ==> ByteOf(a.mask, i - a.offset) == if Covers(a, i) then 0 else 0xff
    ensures Covers(a, i) ==>
              && a.offset <= i < a.offset + 4 && EthWindow(a).value.0 <= i
              && EthWindow(a).value.1[i - EthWindow(a).value.0] == ByteOf(a.val, i - a.offset)
  {
    hide Byte0, Byte1, Byte2, Byte3;
    if a.offset <= i < a.offset + 4 { HalfMasks(i - a.offset); }
  }

  /** Where the driver copies a byte of an accepted mangle, the edit writes that byte; where it does not, the edit
      exclusive-ors the value's byte in. */
  lemma EditOfMangle(a: Action, b: Bytes, i: nat)
    requires a.Mangle? && a.htype == EthHdr && EthWindow(a).Some? && |b| >= 12 && i < 12
    ensures Edit(b, a.offset, a.mask, a.val)[i]
            == if Covers(a, i) then Splice(b, EthWindow(a).value.0, EthWindow(a).value.1)[i] else Xor8(b[i], Residue(a, i))
  {
    hide ByteOf, Edit, And8, Xor8, EthWindow;
    WindowByte(a, i);
    if a.offset <= i < a.offset + 4 {
      EditAt(b, a.offset, a.mask, a.val, i - a.offset);
      XorLaws(b[i], ByteOf(a.val, i - a.offset), 0);
      XorLaws(ByteOf(a.val, i - a.offset), 0, 0);
    } else {
      EditElsewhere(b, a.offset, a.mask, a.val, i);
      XorLaws(b[i], 0, 0);
    }
  }

  lemma EditElsewhere(b: Bytes, off: nat, mask: bv32, val: bv32, i: nat)
    requires i < |b| && !(off <= i < off + 4)
    ensures Edit(b, off, mask, val)[i] == b[i]
  {
    hide Bytes32, EditedWord, Load32;
  }

  /** One action of the first pass: MAC byte i holds `b` with `d` on top, before and after. */
  lemma EthStep(a: Action, key: Key, g: Gathered, p: Packet, i: nat, b: bv8, d: bv8)
    requires GatherOne(a, key, g).Ok? && p.Valid() && i < 12 && p.eth[i] == Xor8(b, d)
    ensures var eth' := GatherOne(a, key, g).value.link.eth;
            && ApplyOne(a, p).eth[i] == Xor8(if Covers(a, i) then eth'[i] else b, Dirt([a], i, d))
            && (!Covers(a, i) ==> eth'[i] == g.link.eth[i])
    ensures ApplyOne(a, p).eth[12..] == p.eth[12..]
  {
    hide Edit, Xor8, Residue;
    if a.Mangle? && a.htype == EthHdr {
      EditOfMangle(a, p.eth, i);
      XorLaws(b, d, Residue(a, i));
      var r := ApplyOne(a, p).eth;
      XorLaws(r[i], 0, 0);
      forall k | 12 <= k < |r| ensures r[k] == p.eth[k] { EditElsewhere(p.eth, a.offset, a.mask, a.val, k); }
      assert r[12..] == p.eth[12..];
    }
  }

  /** The first pass collects, for every covered MAC byte, the last byte written to the packet; what the edits
      leave on top of it is its dirt. */
  lemma {:induction false} GatherCollectsMacs(acts: seq<Action>, key: Key, g: Gathered, p: Packet, i: nat, b: bv8, d: bv8)
    requires Gather(acts, key, g).Ok? && p.Valid() && i < 12 && p.eth[i] == Xor8(b, d)
    ensures var eth := Gather(acts, key, g).value.link.eth;
            && Apply(acts, p).eth[i] == Xor8(if CoveredAt(acts, i) then eth[i] else b, Dirt(acts, i, d))
            && (!CoveredAt(acts, i) ==> eth[i] == g.link.eth[i])
    ensures Apply(acts, p).eth[12..] == p.eth[12..]
  {
    hide Xor8, GatherOne, Covers, Residue, ApplyOne;
    if acts != [] {
      var a, rest := acts[0], acts[1..];
      var g' := GatherOne(a, key, g).value;
      EthStep(a, key, g, p, i, b, d);
      DirtOfOne(a, i, d);
      CoverageOfCons(acts, i);
      GatherCollectsMacs(rest, key, g', ApplyOne(a, p), i, if Covers(a, i) then g'.link.eth[i] else b, Dirt([a], i, d));
    }
  }

  lemma DirtOfOne(a: Action, i: nat, d: bv8)
    ensures Dirt([a], i, d)
            == if Covers(a, i) then 0 else if a.Mangle? && a.htype == EthHdr then Xor8(d, Residue(a, i)) else d
  {
    hide Xor8, Residue, Covers;
    assert [a][1..] == [];
  }

  lemma CoverageOfCons(acts: seq<Action>, i: nat)
    requires acts != []
    ensures CoveredAt(acts, i) <==> Covers(acts[0], i) || CoveredAt(acts[1..], i)
  {
    assert acts == [acts[0]] + acts[1..];
  }

  // ---- The L3/L4 pass ----

  /** The packet carries the rewritten tuple in its address and port fields. */
  ghost predicate Carries(p: Packet, key: Key, n: Nat)
    requires p.Valid()
  {
    && p.proto == key.nProto
    && (key.nProto == HTONS_IP ==> Load32(p.ip, 12) == n.src.w0 && Load32(p.ip, 16) == n.dst.w0)
    && Load16(p.l4, 0) == n.srcPort && Load16(p.l4, 2) == n.dstPort
  }

  /** Only the address fields of an IPv4 header and the port fields differ between p and q. */
  ghost predicate SameElsewhere(p: Packet, q: Packet, key: Key)
    requires p.Valid() && q.Valid()
  {
    && |p.ip| == |q.ip| && |p.l4| == |q.l4| && p.proto == q.proto
    && (forall k :: 0 <= k < |p.ip| && !(key.nProto == HTONS_IP && 12 <= k < 20) ==> p.ip[k] == q.ip[k])
    && (forall k :: 4 <= k < |p.l4| ==> p.l4[k] == q.l4[k])
  }

  lemma PortMasks()
    ensures !Swap32(0xffff_0000) == 0xffff_0000 && !Swap32(0x0000_ffff) == 0x0000_ffff
  {}

  lemma SwappedPorts(v: bv32)
    ensures Swap16(Hi16(Swap32(v))) == Lo16(v) && Swap16(Lo16(Swap32(v))) == Hi16(v)
  {}

  /** A port mangle names the source port by the low half-word of its value, the destination by the high one. */
  lemma PortMangle(a: Action, n: Nat)
    requires a.Mangle? && ManglePorts(a, n).Ok?
    ensures a.offset == 0 && a.mask == if NamesSource(a) then 0xffff_0000 else 0x0000_ffff
    ensures ManglePorts(a, n).value == if NamesSource(a) then n.(srcPort := Lo16(a.val)) else n.(dstPort := Hi16(a.val))
  {
    PortMasks();
    SwappedPorts(a.val);
  }

  /** Each half of the port word after an edit that writes one half and keeps the other. */
  lemma PortEdit(b: Bytes, mask: bv32, val: bv32)
    requires |b| >= 4 && (mask == 0xffff_0000 || mask == 0x0000_ffff)
    ensures var r := Edit(b, 0, mask, val);
            && Load16(r, 0) == (if mask == 0xffff_0000 then Lo16(val) else Xor16(Load16(b, 0), Lo16(val)))
            && Load16(r, 2) == (if mask == 0xffff_0000 then Xor16(Load16(b, 2), Hi16(val)) else Hi16(val))
            && forall k :: 4 <= k < |b| ==> b[k] == r[k]
  {
    hide Edit, Half, Lo16, Hi16, Xor8, Xor16, And8, Byte0, Byte1, Byte2, Byte3;
    forall k | 0 <= k < 4
      ensures Edit(b, 0, mask, val)[k] == if ByteOf(mask, k) == 0 then ByteOf(val, k) else Xor8(b[k], ByteOf(val, k))
    {
      EditAt(b, 0, mask, val, k);
      HalfMasks(k);
      XorLaws(b[k], ByteOf(val, k), 0);
      XorLaws(ByteOf(val, k), 0, 0);
    }
    HalfMasks(0); HalfMasks(1); HalfMasks(2); HalfMasks(3);
    HalvesOfBytes(val);
    HalfOfXor(b[0], b[1], ByteOf(val, 0), ByteOf(val, 1));
    HalfOfXor(b[2], b[3], ByteOf(val, 2), ByteOf(val, 3));
    forall k | 4 <= k < |b| ensures b[k] == Edit(b, 0, mask, val)[k] { EditElsewhere(b, 0, mask, val, k); }
  }

  lemma PortEditOf(a: Action, n: Nat, b: Bytes)
    requires a.Mangle? && ManglePorts(a, n).Ok? && |b| >= 4
    ensures var r := Edit(b, a.offset, a.mask, a.val);
            && Load16(r, 0) == (if NamesSource(a) then Lo16(a.val) else Xor16(Load16(b, 0), Lo16(a.val)))
            && Load16(r, 2) == (if NamesSource(a) then Xor16(Load16(b, 2), Hi16(a.val)) else Hi16(a.val))
            && forall k :: 4 <= k < |b| ==> b[k] == r[k]
  {
    hide Edit, Load16, Xor16, Lo16, Hi16, ManglePorts;
    PortMangle(a, n);
    PortEdit(b, a.mask, a.val);
  }

  lemma HalvesOfBytes(w: bv32)
    ensures Half(ByteOf(w, 0), ByteOf(w, 1)) == Lo16(w) && Half(ByteOf(w, 2), ByteOf(w, 3)) == Hi16(w)
  {}

  /** The rewritten tuple with ports that carry dirt. */
  function Tainted(n: Nat, s: bv16, d: bv16): Nat {
    n.(srcPort := Xor16(n.srcPort, s), dstPort := Xor16(n.dstPort, d))
  }

  /** A port mangle rewrites the port it names and exclusive-ors into the other one. */
  lemma PortStep(a: Action, p: Packet, key: Key, n: Nat, s: bv16, d: bv16)
    requires IsPortMangle(a) && ManglePorts(a, n).Ok? && p.Valid() && Carries(p, key, Tainted(n, s, d))
    ensures Carries(ApplyOne(a, p), key, Tainted(ManglePorts(a, n).value, SourceDirt([a], s), DestinationDirt([a], d)))
    ensures SameElsewhere(p, ApplyOne(a, p), key)
  {
    hide Edit, Load16, Load32, Xor16, Lo16, Hi16, ManglePorts, NamesSource;
    PortMangle(a, n);
    PortEditOf(a, n, p.l4);
    DirtOfPort(a, s, d);
    XorLaws16(n.srcPort, s, Lo16(a.val));
    XorLaws16(n.dstPort, d, Hi16(a.val));
    XorLaws16(Lo16(a.val), 0, 0);
    XorLaws16(Hi16(a.val), 0, 0);
  }

  lemma DirtOfPort(a: Action, s: bv16, d: bv16)
    ensures SourceDirt([a], s) == if !IsPortMangle(a) then s else if NamesSource(a) then 0 else Xor16(s, Lo16(a.val))
    ensures DestinationDirt([a], d) == if !IsPortMangle(a) then d else if NamesSource(a) then Xor16(d, Hi16(a.val)) else 0
  {
    hide Xor16, Lo16, Hi16;
    assert [a][1..] == [];
  }

  lemma AddressEdit(b: Bytes, at: nat, val: bv32)
    requires |b| >= 20 && (at == 12 || at == 16)
    ensures var r := Edit(b, at, 0, val);
            && Load32(r, at) == val && Load32(r, 28 - at) == Load32(b, 28 - at)
            && forall k :: 0 <= k < |b| && !(12 <= k < 20) ==> b[k] == r[k]
  {
    ReplacedWord(Load32(b, at), val);
    LoadOfStore32(b, at, val);
    LoadElsewhere32(b, at, val, 28 - at);
  }

  lemma ReplacedWord(w: bv32, val: bv32)
    ensures EditedWord(w, 0, val) == val
  {}

  lemma AddressStep(a: Action, p: Packet, key: Key, n: Nat)
    requires a.Mangle? && a.htype == Ip4Hdr && MangleIpv4(a, key, n).Ok? && p.Valid() && Carries(p, key, n)
    ensures Carries(ApplyOne(a, p), key, MangleIpv4(a, key, n).value) && SameElsewhere(p, ApplyOne(a, p), key)
  {
    hide Load32, Load16;
    AddressEdit(p.ip, a.offset, a.val);
  }

  lemma TranslateStep(a: Action, p: Packet, key: Key, n: Nat, s: bv16, d: bv16)
    requires TranslateOne(a, key, n).Ok? && p.Valid() && Carries(p, key, Tainted(n, s, d))
    ensures var n' := TranslateOne(a, key, n).value;
            Carries(ApplyOne(a, p), key, Tainted(n', SourceDirt([a], s), DestinationDirt([a], d)))
    ensures SameElsewhere(p, ApplyOne(a, p), key)
  {
    hide Edit, Load16, Load32, Xor16, Lo16, Hi16, ManglePorts;
    DirtOfPort(a, s, d);
    if a.Mangle? && a.htype == Ip4Hdr {
      AddressStep(a, p, key, Tainted(n, s, d));
    } else if a.Mangle? && a.htype != EthHdr {
      PortStep(a, p, key, n, s, d);
    }
  }

  /** The second pass computes the addresses and ports of the edited packet, up to the ports' dirt. */
  lemma {:induction false} TranslateCarries(acts: seq<Action>, p: Packet, key: Key, n: Nat, s: bv16, d: bv16)
    requires Translate(acts, key, n).Ok? && p.Valid() && Carries(p, key, Tainted(n, s, d))
    ensures Carries(Apply(acts, p), key, Tainted(Translate(acts, key, n).value, SourceDirt(acts, s), DestinationDirt(acts, d)))
    ensures SameElsewhere(p, Apply(acts, p), key)
  {
    hide Carries, Tainted, Xor16, TranslateOne, ApplyOne, Lo16, Hi16;
    if acts != [] {
      var a := acts[0];
      TranslateStep(a, p, key, n, s, d);
      DirtOfPort(a, s, d);
      TranslateCarries(acts[1..], ApplyOne(a, p), key, TranslateOne(a, key, n).value, SourceDirt([a], s), DestinationDirt([a], d));
    }
  }

  // ---- Main results ----

  ghost predicate Hits(p: Packet, key: Key) { p.Valid() && PacketKey(p) == key }

  /** How the parsed data of an accepted rule is put together. */
  lemma PartsOfParsed(rule: Rule)
    requires Parsed(rule).Ok?
    ensures var data, acts := Parsed(rule).value, rule.actions;
            && ParseMatch(rule.flow) == Ok(data.tuple)
            && Gather(acts, data.tuple, Gathered(EMPTY_LINK, false)).Ok?
            && Gather(acts, data.tuple, Gathered(EMPTY_LINK, false)).value.link == data.link
            && Translate(acts, data.tuple, InitialData(data.tuple).rewritten) == Ok(data.rewritten)
  {}

  /** Before any edit, a packet of the flow carries the original tuple. */
  lemma InitiallyCarries(p: Packet, key: Key)
    requires Hits(p, key) && key.nProto in {HTONS_IP, HTONS_IPV6}
    ensures Carries(p, key, InitialData(key).rewritten)
  {}

  lemma MatchedFamily(m: Match)
    requires ParseMatch(m).Ok?
    ensures var key := ParseMatch(m).value;
            && key.nProto in {HTONS_IP, HTONS_IPV6}
            && (key.nProto == HTONS_IP ==> key.src == Ipv4Addr(key.src.w0) && key.dst == Ipv4Addr(key.dst.w0))
  {}

  /** For a packet of the flow, each MAC byte ends as the parsed one where a mangle covers it and as it was
      elsewhere, with its dirt on top. */
  lemma ParsedMacs(rule: Rule, p: Packet)
    requires Parsed(rule).Ok? && Hits(p, Parsed(rule).value.tuple)
    ensures var eth, q, acts := Parsed(rule).value.link.eth, Apply(rule.actions, p), rule.actions;
            && q.eth[12..] == p.eth[12..]
            && (forall i :: 0 <= i < 12 ==> q.eth[i] == Xor8(if CoveredAt(acts, i) then eth[i] else p.eth[i], Dirt(acts, i, 0)))
            && (forall i :: 0 <= i < 12 && !CoveredAt(acts, i) ==> eth[i] == 0)
  {
    hide Xor8, Gather, Dirt, CoveredAt;
    PartsOfParsed(rule);
    forall i | 0 <= i < 12
      ensures var eth, q, acts := Parsed(rule).value.link.eth, Apply(rule.actions, p), rule.actions;
              && q.eth[12..] == p.eth[12..]
              && q.eth[i] == Xor8(if CoveredAt(acts, i) then eth[i] else p.eth[i], Dirt(acts, i, 0))
              && (!CoveredAt(acts, i) ==> eth[i] == 0)
    {
      XorLaws(p.eth[i], 0, 0);
      GatherCollectsMacs(rule.actions, Parsed(rule).value.tuple, Gathered(EMPTY_LINK, false), p, i, p.eth[i], 0);
    }
    assert 0 <= 0 < 12;
  }

  /** For a packet of the flow, addresses and ports end as the parsed ones, the ports with their dirt on top. */
  lemma ParsedTuple(rule: Rule, p: Packet)
    requires Parsed(rule).Ok? && Hits(p, Parsed(rule).value.tuple)
    ensures var data, q := Parsed(rule).value, Apply(rule.actions, p);
            && Carries(q, data.tuple, Tainted(data.rewritten, SourceDirt(rule.actions, 0), DestinationDirt(rule.actions, 0)))
            && SameElsewhere(p, q, data.tuple)
  {
    hide Translate, Xor16, SourceDirt, DestinationDirt, Carries;
    var data := Parsed(rule).value;
    var n := InitialData(data.tuple).rewritten;
    PartsOfParsed(rule);
    MatchedFamily(rule.flow);
    InitiallyCarries(p, data.tuple);
    XorLaws16(n.srcPort, 0, 0);
    XorLaws16(n.dstPort, 0, 0);
    assert Tainted(n, 0, 0) == n;
    TranslateCarries(rule.actions, p, data.tuple, n, 0, 0);
  }

  /** A packet that carries a tuple and is otherwise unchanged is the header rewrite to that tuple. */
  lemma CarriedHeaders(p: Packet, q: Packet, key: Key, n: Nat)
    requires p.Valid() && q.Valid() && p.proto == key.nProto
    requires Carries(q, key, n) && SameElsewhere(p, q, key)
    ensures q.ip == if p.proto == HTONS_IP then Store32(Store32(p.ip, 12, n.src.w0), 16, n.dst.w0) else p.ip
    ensures q.l4 == Store32(p.l4, 0, Pack16(n.srcPort, n.dstPort))
  {
    hide Load32, Load16, Pack16, Store32;
    if p.proto == HTONS_IP {
      CarriedAddresses(p.ip, q.ip, n.src.w0, n.dst.w0);
    }
    CarriedPorts(p.l4, q.l4, n.srcPort, n.dstPort);
  }

  lemma CarriedPorts(b: Bytes, c: Bytes, src: bv16, dst: bv16)
    requires |b| == |c| >= 4 && Load16(c, 0) == src && Load16(c, 2) == dst
    requires forall k :: 4 <= k < |b| ==> b[k] == c[k]
    ensures c == Store32(b, 0, Pack16(src, dst))
  {
    hide Bytes32, Pack16, Load16;
    BytesOfPorts(c);
  }

  lemma CarriedAddresses(b: Bytes, c: Bytes, src: bv32, dst: bv32)
    requires |b| == |c| >= 20 && Load32(c, 12) == src && Load32(c, 16) == dst
    requires forall k :: 0 <= k < |b| && !(12 <= k < 20) ==> b[k] == c[k]
    ensures c == Store32(Store32(b, 12, src), 16, dst)
  {
    BytesOfLoad(c, 12);
    BytesOfLoad(c, 16);
  }

  lemma BytesOfPorts(b: Bytes)
    requires |b| >= 4
    ensures Bytes32(Pack16(Load16(b, 0), Load16(b, 2))) == [b[0], b[1], b[2], b[3]]
  {
    PackOfBytes(b[0], b[1], b[2], b[3]);
    BytesOfWord(b[0], b[1], b[2], b[3]);
  }

  lemma PackOfBytes(a: bv8, b: bv8, c: bv8, d: bv8)
    ensures Pack16(Half(a, b), Half(c, d)) == Word(a, b, c, d)
  {}

  /** A packet with the given tuple and MAC addresses. */
  function PacketOf(key: Key, eth: Macs): Packet {
    var tail: Bytes := [0, 0];
    Packet(key.nProto, eth + tail,
           if key.nProto == HTONS_IPV6 then
             [0, 0, 0, 0, 0, 0, key.ipProto, 0]
             + AddrBytes(key.src) + AddrBytes(key.dst)
           else
             [0, 0, 0, 0, 0, 0, 0, 0, 0, key.ipProto, 0, 0] + Bytes32(key.src.w0) + Bytes32(key.dst.w0),
           Bytes32(Pack16(key.srcPort, key.dstPort)))
  }

  lemma LoadAfter(a: Bytes, w: bv32, b: Bytes)
    ensures Load32(a + Bytes32(w) + b, |a|) == w
  {
    WordOfBytes(w);
  }

  lemma PortsOfPack(src: bv16, dst: bv16)
    ensures var b := Bytes32(Pack16(src, dst)); Load16(b, 0) == src && Load16(b, 2) == dst
  {
    HalvesFromBytes(Pack16(src, dst));
    HalvesOfPack(src, dst);
  }

  /** Every tuple the match parser accepts has packets, with any MAC addresses. */
  lemma PacketOfHits(m: Match, eth: Macs)
    requires ParseMatch(m).Ok?
    ensures Hits(PacketOf(ParseMatch(m).value, eth), ParseMatch(m).value)
  {
    hide ParseMatch, Load32, Load16, Pack16, Bytes32;
    var key := ParseMatch(m).value;
    MatchedFamily(m);
    PortsOfPack(key.srcPort, key.dstPort);
    if key.nProto == HTONS_IPV6 {
      Ipv6HeaderLoads(key);
    } else {
      Ipv4HeaderLoads(key);
    }
  }

  lemma Ipv4HeaderLoads(key: Key)
    requires key.nProto != HTONS_IPV6
    ensures var ip := PacketOf(key, ZERO_MACS).ip;
            |ip| == 20 && ip[9] == key.ipProto && Load32(ip, 12) == key.src.w0 && Load32(ip, 16) == key.dst.w0
  {
    var pre: Bytes, src, dst := [0, 0, 0, 0, 0, 0, 0, 0, 0, key.ipProto, 0, 0], Bytes32(key.src.w0), Bytes32(key.dst.w0);
    assert PacketOf(key, ZERO_MACS).ip == pre + src + dst == pre + src + dst + [];
    LoadAfter(pre, key.src.w0, dst);
    LoadAfter(pre + src, key.dst.w0, []);
  }

  lemma Ipv6HeaderLoads(key: Key)
    requires key.nProto == HTONS_IPV6
    ensures var ip := PacketOf(key, ZERO_MACS).ip;
            && |ip| == 40 && ip[6] == key.ipProto
            && Addr(Load32(ip, 8), Load32(ip, 12), Load32(ip, 16), Load32(ip, 20)) == key.src
            && Addr(Load32(ip, 24), Load32(ip, 28), Load32(ip, 32), Load32(ip, 36)) == key.dst
  {
    var pre: Bytes, src, dst := [0, 0, 0, 0, 0, 0, key.ipProto, 0], AddrBytes(key.src), AddrBytes(key.dst);
    assert PacketOf(key, ZERO_MACS).ip == pre + src + dst == pre + src + dst + [];
    LoadWords(key.src, pre, dst);
    LoadWords(key.dst, pre + src, []);
  }

  lemma LoadWords(a: Addr, pre: Bytes, post: Bytes)
    ensures var b, i := pre + AddrBytes(a) + post, |pre|;
            Addr(Load32(b, i), Load32(b, i + 4), Load32(b, i + 8), Load32(b, i + 12)) == a
  {
    WordOfBytes(a.w0);
    WordOfBytes(a.w1);
    WordOfBytes(a.w2);
    WordOfBytes(a.w3);
  }

  /** Parsing preserves meaning: the parsed rewrite is the rule's edits on every packet of the flow exactly when
      the mangles cover all twelve MAC bytes and leave no value bit under a kept mask. */
  lemma ParsePreservesMeaning(rule: Rule)
    requires Parsed(rule).Ok?
    ensures (forall p :: Hits(p, Parsed(rule).value.tuple) ==> Rewrite(Parsed(rule).value, p) == Apply(rule.actions, p))
            <==> Covered(rule.actions) && Settled(rule.actions)
  {
    hide Parsed, Apply, Rewrite, Dirt, CoveredAt, SourceDirt, DestinationDirt;
    var data, acts := Parsed(rule).value, rule.actions;
    if Covered(acts) && Settled(acts) {
      forall p | Hits(p, data.tuple) ensures Rewrite(data, p) == Apply(acts, p) {
        SettledRewrite(rule, p);
      }
    } else if i :| 0 <= i < 12 && !(CoveredAt(acts, i) && Dirt(acts, i, 0) == 0) {
      MacDiffers(rule, i);
    } else {
      PortDiffers(rule);
    }
  }

  /** A MAC byte that is not covered, or not clean in the end, tells the two apart on some packet. */
  lemma MacDiffers(rule: Rule, i: nat)
    requires Parsed(rule).Ok? && i < 12 && !(CoveredAt(rule.actions, i) && Dirt(rule.actions, i, 0) == 0)
    ensures exists p :: Hits(p, Parsed(rule).value.tuple) && Rewrite(Parsed(rule).value, p) != Apply(rule.actions, p)
  {
    hide Parsed, Apply, Dirt, CoveredAt, Xor8;
    var data, dirt := Parsed(rule).value, Dirt(rule.actions, i, 0);
    var macs := ZERO_MACS[i := Xor8(dirt, 1)];
    var p := PacketOf(data.tuple, macs);
    assert Hits(p, data.tuple) by { ParsedKey(rule); PacketOfHits(rule.flow, macs); }
    ParsedMacs(rule, p);
    assert p.eth[i] == Xor8(dirt, 1) && Rewrite(data, p).eth[i] == data.link.eth[i];
    XorLaws(data.link.eth[i], dirt, 0);
    OddXor(dirt);
  }

  lemma OddXor(d: bv8)
    ensures Xor8(Xor8(d, 1), d) != 0
  {}

  lemma ParsedKey(rule: Rule)
    requires Parsed(rule).Ok?
    ensures ParseMatch(rule.flow) == Ok(Parsed(rule).value.tuple)
  {
    PartsOfParsed(rule);
  }

  /** A port that is not clean in the end tells the two apart on every packet. */
  lemma PortDiffers(rule: Rule)
    requires Parsed(rule).Ok? && !(SourceDirt(rule.actions, 0) == 0 && DestinationDirt(rule.actions, 0) == 0)
    ensures exists p :: Hits(p, Parsed(rule).value.tuple) && Rewrite(Parsed(rule).value, p) != Apply(rule.actions, p)
  {
    hide Parsed, Apply, SourceDirt, DestinationDirt, Xor16, Pack16, Load16, Bytes32;
    var data := Parsed(rule).value;
    var p := PacketOf(data.tuple, ZERO_MACS);
    assert Hits(p, data.tuple) by { ParsedKey(rule); PacketOfHits(rule.flow, ZERO_MACS); }
    ParsedTuple(rule, p);
    RewrittenPorts(data, p);
    XorLaws16(data.rewritten.srcPort, SourceDirt(rule.actions, 0), 0);
    XorLaws16(data.rewritten.dstPort, DestinationDirt(rule.actions, 0), 0);
  }

  lemma RewrittenPorts(data: FlowData, p: Packet)
    requires p.Valid()
    ensures var r := Rewrite(data, p); Load16(r.l4, 0) == data.rewritten.srcPort && Load16(r.l4, 2) == data.rewritten.dstPort
  {
    hide Load16, Pack16, Bytes32;
    var b := Bytes32(Pack16(data.rewritten.srcPort, data.rewritten.dstPort));
    PortsOfPack(data.rewritten.srcPort, data.rewritten.dstPort);
    LoadOfSplice(p.l4, b);
  }

  lemma LoadOfSplice(b: Bytes, w: Bytes)
    requires |w| == 4 <= |b|
    ensures var r := Splice(b, 0, w); Load16(r, 0) == Load16(w, 0) && Load16(r, 2) == Load16(w, 2)
  {
    hide Half;
  }

  lemma SettledRewrite(rule: Rule, p: Packet)
    requires Parsed(rule).Ok? && Covered(rule.actions) && Settled(rule.actions)
    requires Hits(p, Parsed(rule).value.tuple)
    ensures Rewrite(Parsed(rule).value, p) == Apply(rule.actions, p)
  {
    hide Parsed, Apply, Dirt, CoveredAt, SourceDirt, DestinationDirt, Xor8, Xor16, Carries, Store32, Pack16;
    var data := Parsed(rule).value;
    var r, q, n := Rewrite(data, p), Apply(rule.actions, p), data.rewritten;
    ParsedTuple(rule, p);
    XorLaws16(n.srcPort, 0, 0);
    XorLaws16(n.dstPort, 0, 0);
    assert Tainted(n, 0, 0) == n;
    CarriedHeaders(p, q, data.tuple, n);
    ParsedMacs(rule, p);
    forall i | 0 <= i < 12 ensures r.eth[i] == q.eth[i] { XorLaws(data.link.eth[i], 0, 0); }
    SplitAt12(r.eth, q.eth);
  }

  /** A value with no bits under its mask leaves nothing, so a list of such mangles is settled. */
  predicate Clean(acts: seq<Action>) { forall a :: a in acts && a.Mangle? ==> a.val & a.mask == 0 }

  lemma CleanResidue(a: Action, i: nat)
    requires a.Mangle? && EthWindow(a).Some? && a.val & a.mask == 0 && a.htype == EthHdr && !Covers(a, i) && i < 12
    ensures Residue(a, i) == 0
  {}

  lemma CleanHalves(a: Action, n: Nat)
    requires a.Mangle? && ManglePorts(a, n).Ok? && a.val & a.mask == 0
    ensures if NamesSource(a) then Hi16(a.val) == 0 else Lo16(a.val) == 0
  {
    hide ManglePorts;
    PortMangle(a, n);
  }

  lemma {:induction false} CleanLeavesNoDirt(acts: seq<Action>, key: Key, g: Gathered, i: nat)
    requires Gather(acts, key, g).Ok? && Clean(acts) && i < 12
    ensures Dirt(acts, i, 0) == 0
  {
    hide Residue, Xor8, MangleEth, Covers;
    if acts != [] {
      var a := acts[0];
      assert a in acts && forall b :: b in acts[1..] ==> b in acts;
      if a.Mangle? && a.htype == EthHdr && !Covers(a, i) {
        assert EthWindow(a).Some? by { MangledWindow(a, g.link.eth); }
        CleanResidue(a, i);
        XorLaws(0, 0, 0);
      }
      CleanLeavesNoDirt(acts[1..], key, GatherOne(a, key, g).value, i);
    }
  }

  lemma MangledWindow(a: Action, eth: Macs)
    requires a.Mangle? && MangleEth(a, eth).Ok?
    ensures EthWindow(a).Some?
  {}

  lemma {:induction false} CleanLeavesNoPortDirt(acts: seq<Action>, key: Key, n: Nat)
    requires Translate(acts, key, n).Ok? && Clean(acts)
    ensures SourceDirt(acts, 0) == 0 && DestinationDirt(acts, 0) == 0
  {
    hide Xor16, ManglePorts, MangleIpv4, Lo16, Hi16, NamesSource;
    if acts != [] {
      var a := acts[0];
      assert a in acts && forall b :: b in acts[1..] ==> b in acts;
      if IsPortMangle(a) {
        CleanHalves(a, n);
        XorLaws16(0, 0, 0);
      }
      CleanLeavesNoPortDirt(acts[1..], key, TranslateOne(a, key, n).value);
    }
  }

  lemma CleanIsSettled(rule: Rule)
    requires Parsed(rule).Ok? && Clean(rule.actions)
    ensures Settled(rule.actions)
  {
    hide Gather, Translate, Dirt, SourceDirt, DestinationDirt, Clean;
    PartsOfParsed(rule);
    var key := Parsed(rule).value.tuple;
    forall i | 0 <= i < 12 ensures Dirt(rule.actions, i, 0) == 0 {
      CleanLeavesNoDirt(rule.actions, key, Gathered(EMPTY_LINK, false), i);
    }
    CleanLeavesNoPortDirt(rule.actions, key, InitialData(key).rewritten);
  }

  lemma SplitAt12(a: Bytes, b: Bytes)
    requires |a| == |b| >= 12 && a[12..] == b[12..] && forall i :: 0 <= i < 12 ==> a[i] == b[i]
    ensures a == b
  {
    assert a == a[..12] + a[12..] && b == b[..12] + b[12..];
  }

  function And(a: Addr, mask: Addr): Addr {
    Addr(a.w0 & mask.w0, a.w1 & mask.w1, a.w2 & mask.w2, a.w3 & mask.w3)
  }

  /** A tuple seen through the masks of a match; the address type picks the addresses that are compared. */
  function Masked(m: Match, key: Key): Key {
    var basic, ports, addrs := Basic in m.usedKeys, Ports in m.usedKeys, m.addrType in m.usedKeys;
    Key(if basic then key.nProto & m.nProtoMask else 0,
        if basic then key.ipProto & m.ipProtoMask else 0,
        if ports then key.srcPort & m.srcPortMask else 0,
        if ports then key.dstPort & m.dstPortMask else 0,
        if !addrs then ZERO_ADDR else if m.addrType == Ipv4Addrs then Ipv4Addr(key.src.w0 & m.srcMask.w0)
        else And(key.src, m.srcMask),
        if !addrs then ZERO_ADDR else if m.addrType == Ipv4Addrs then Ipv4Addr(key.dst.w0 & m.dstMask.w0)
        else And(key.dst, m.dstMask))
  }

  /** The L3/L4 part of a flower match: the packet's tuple and the rule's key agree under the masks. */
  predicate Selects(m: Match, p: Packet)
    requires p.Valid()
  {
    Masked(m, PacketKey(p)) == Masked(m, Key(m.nProto, m.ipProto, m.srcPort, m.dstPort, m.src, m.dst))
  }

  /** Through the masks of an accepted match every bit of a tuple of its family is seen. */
  lemma AcceptedMasksAreExact(m: Match, key: Key)
    requires ParseMatch(m).Ok?
    ensures m.addrType == Ipv4Addrs ==>
              Masked(m, key) == key.(src := Ipv4Addr(key.src.w0), dst := Ipv4Addr(key.dst.w0))
    ensures m.addrType != Ipv4Addrs ==> Masked(m, key) == key
  {
    hide ParseMatch, And;
    AcceptedMasks(m);
    if m.addrType == Ipv4Addrs {
      MaskedIpv4(m, key);
    } else {
      MaskedIpv6(m, key);
    }
  }

  lemma MaskedIpv4(m: Match, key: Key)
    requires ExactMasks(m) && m.addrType == Ipv4Addrs && m.srcMask.w0 == m.dstMask.w0 == 0xffff_ffff
    ensures Masked(m, key) == key.(src := Ipv4Addr(key.src.w0), dst := Ipv4Addr(key.dst.w0))
  {
    hide And;
  }

  lemma MaskedIpv6(m: Match, key: Key)
    requires ExactMasks(m) && m.addrType != Ipv4Addrs && m.srcMask == m.dstMask == ALL_ONES
    ensures Masked(m, key) == key
  {
    hide And;
    AndOnes(key.src);
    AndOnes(key.dst);
  }

  predicate ExactMasks(m: Match) {
    && Basic in m.usedKeys && Ports in m.usedKeys && m.addrType in m.usedKeys
    && m.nProtoMask == 0xffff && m.ipProtoMask == 0xff && m.srcPortMask == 0xffff && m.dstPortMask == 0xffff
  }

  lemma AndOnes(a: Addr)
    ensures And(a, ALL_ONES) == a
  {}

  lemma AcceptedMasks(m: Match)
    requires ParseMatch(m).Ok?
    ensures ExactMasks(m)
    ensures || (m.nProto == HTONS_IP && m.addrType == Ipv4Addrs && m.srcMask.w0 == m.dstMask.w0 == 0xffff_ffff)
            || (m.nProto == HTONS_IPV6 && m.addrType == Ipv6Addrs && m.srcMask == m.dstMask == ALL_ONES)
  {}

  /** An accepted match is exact: the packets it selects are those that carry its 5-tuple. */
  lemma AcceptedMatchIsExact(m: Match, p: Packet)
    requires ParseMatch(m).Ok? && p.Valid()
    ensures Selects(m, p) <==> Hits(p, ParseMatch(m).value)
  {
    AcceptedMasksAreExact(m, PacketKey(p));
    AcceptedMasksAreExact(m, Key(m.nProto, m.ipProto, m.srcPort, m.dstPort, m.src, m.dst));
    AcceptedKey(m);
  }

  lemma AcceptedKey(m: Match)
    requires ParseMatch(m).Ok?
    ensures var key := ParseMatch(m).value;
            && key.nProto == m.nProto && key.ipProto == m.ipProto
            && key.srcPort == m.srcPort && key.dstPort == m.dstPort
    ensures m.addrType == Ipv4Addrs ==>
              && m.nProto == HTONS_IP
              && ParseMatch(m).value.src == Ipv4Addr(m.src.w0) && ParseMatch(m).value.dst == Ipv4Addr(m.dst.w0)
    ensures m.addrType != Ipv4Addrs ==>
              m.nProto == HTONS_IPV6 && ParseMatch(m).value.src == m.src && ParseMatch(m).value.dst == m.dst
  {}
}
