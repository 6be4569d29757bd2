/** The two descriptor generations behind one interface: compile a rule, promote, clear, read back. */
module Generation {
  import opened Wire
  import opened Flow
  import opened Foe
  import opened Topology
  import opened Pedit
  import FoeV1
  import FoeV2

  datatype Gen = V1 | V2

  function KeyOf(g: Gen, e: Foe): Option<Key> {
    if g == V1 then FoeV1.KeyOf(e) else FoeV2.KeyOf(e)
  }

  method ReadKey(g: Gen, e: Foe) returns (key: Option<Key>)
    ensures key == KeyOf(g, e)
  {
    hide FoeV1.KeyOf, FoeV2.KeyOf;
    if g == V1 { return FoeV1.KeyOf(e); }
    key := FoeV2.ReadKey(e);
  }

  function HwRewrite(g: Gen, e: Foe, p: Packet): Packet
    requires p.Valid()
  {
    if g == V1 then FoeV1.HwRewrite(e, p) else FoeV2.HwRewrite(e, p)
  }

  function TimestampMask(g: Gen): bv32 { if g == V1 then FoeV1.IB1_TIMESTAMP else FoeV2.IB1_TIMESTAMP }

  // ---- Compiling a rule ----

  function Prepared(g: Gen, data: FlowData, egress: Egress): Result<Foe> {
    if g == V2 then FoeV2.Prepared(data, egress)
    else if data.tuple.nProto != HTONS_IP then Err(EOPNOTSUPP)
    else match FoeV1.ResolveOutput(data.link, egress)
      case Err(e) => Err(e)
      case Ok(out) => Ok(FoeV1.Built(data, out))
  }

  /** prepare(): refuse what the generation cannot express, resolve the output, build the template. */
  method Prepare(g: Gen, data: FlowData, egress: Egress) returns (r: Result<Foe>)
    ensures r == Prepared(g, data, egress)
  {
    hide FoeV1.Built, FoeV2.BuiltIpv4, FoeV2.BuiltIpv6;
    var family := data.tuple.nProto;
    if g == V1 {
      if family != HTONS_IP { return Err(EOPNOTSUPP); }
      var out := FoeV1.ResolveOutput(data.link, egress);
      if out.Err? { return Err(out.error); }
      var foe := FoeV1.Build(data, out.value);
      return Ok(foe);
    }
    if family != HTONS_IP && family != HTONS_IPV6 { return Err(EOPNOTSUPP); }
    if family == HTONS_IPV6 && data.rewritten != InitialData(data.tuple).rewritten { return Err(EOPNOTSUPP); }
    var out := FoeV2.ResolveOutput(data.link, egress);
    if out.Err? { return Err(out.error); }
    if family == HTONS_IP {
      var foe := FoeV2.BuildIpv4(data, out.value);
      r := Ok(foe);
    } else {
      var foe := FoeV2.BuildIpv6(data, out.value);
      r := Ok(foe);
    }
  }

  /** The tuple that a rule authorises and the descriptor template that is bound for it. */
  datatype Template = Template(key: Key, foe: Foe)

  /** From a rule to its template; the topology says what each output device leads to. */
  ghost function Compiled(g: Gen, rule: Rule, topology: Device -> Egress): Result<Template> {
    match Parsed(rule)
    case Err(e) => Err(e)
    case Ok(data) =>
      match Prepared(g, data, topology(data.link.outDev.value))
      case Err(e) => Err(e)
      case Ok(foe) => Ok(Template(data.tuple, foe))
  }

  method Compile(g: Gen, rule: Rule, topology: Device -> Egress) returns (r: Result<Template>)
    ensures r == Compiled(g, rule, topology)
  {
    hide Parsed, Prepared;
    var data := Parse(rule);
    if data.Err? { return Err(data.error); }
    ParsedHasDevice(rule);
    var foe := Prepare(g, data.value, topology(data.value.link.outDev.value));
    if foe.Err? { return Err(foe.error); }
    r := Ok(Template(data.value.tuple, foe.value));
  }

  lemma ParsedHasDevice(rule: Rule)
    requires Parsed(rule).Ok?
    ensures Parsed(rule).value.link.outDev.Some?
  {}

  lemma ParsedTupleIsFull(rule: Rule)
    requires Parsed(rule).Ok?
    ensures FoeV2.FullTuple(Parsed(rule).value.tuple)
  {
    PartsOfParsed(rule);
    AcceptedKey(rule.flow);
  }

  /** Key agreement: the key read back from a compiled template is the key built from the parsed data. */
  lemma CompiledKey(g: Gen, rule: Rule, topology: Device -> Egress)
    requires Compiled(g, rule, topology).Ok?
    ensures var t := Compiled(g, rule, topology).value;
            KeyOf(g, t.foe) == Some(t.key) && StateOf(t.foe) == INVALID
  {
    hide Parsed, FoeV1.KeyOf, FoeV2.KeyOf, FoeV1.Built, FoeV2.Prepared, StateOf;
    var data := Parsed(rule).value;
    ParsedHasDevice(rule);
    ParsedTupleIsFull(rule);
    if g == V1 {
      FoeV1.KeyOfBuilt(data, FoeV1.ResolveOutput(data.link, topology(data.link.outDev.value)).value);
    } else {
      FoeV2.KeyOfPrepared(data, topology(data.link.outDev.value));
    }
  }

  /** Compilation preserves meaning: on every packet of the flow the template rewrites the headers
      as the rule's edits do, exactly when the mangles cover all twelve MAC bytes and leave nothing under a mask. */
  lemma CompilePreservesMeaning(g: Gen, rule: Rule, topology: Device -> Egress)
    requires Compiled(g, rule, topology).Ok?
    ensures var t := Compiled(g, rule, topology).value;
            (forall p :: Hits(p, t.key) ==> HwRewrite(g, t.foe, p) == Apply(rule.actions, p)) <==> Covered(rule.actions) && Settled(rule.actions)
  {
    var t := Compiled(g, rule, topology).value;
    forall p | Hits(p, t.key) ensures HwRewrite(g, t.foe, p) == Rewrite(Parsed(rule).value, p) {
      TemplateRewrites(g, rule, topology, p);
    }
    ParsePreservesMeaning(rule);
  }

  lemma TemplateRewrites(g: Gen, rule: Rule, topology: Device -> Egress, p: Packet)
    requires Compiled(g, rule, topology).Ok? && Hits(p, Compiled(g, rule, topology).value.key)
    ensures HwRewrite(g, Compiled(g, rule, topology).value.foe, p) == Rewrite(Parsed(rule).value, p)
  {
    hide Parsed, FoeV1.HwRewrite, FoeV2.HwRewrite, FoeV1.Built, FoeV2.Prepared, Rewrite;
    var data := Parsed(rule).value;
    ParsedHasDevice(rule);
    var egress := topology(data.link.outDev.value);
    ParsedTupleIsFull(rule);
    if g == V1 {
      FoeV1.BuiltRewrites(data, FoeV1.ResolveOutput(data.link, egress).value, p);
    } else {
      FoeV2.PreparedRewrites(data, egress, p);
    }
  }

  // ---- Promotion ----

  /** The learned tuple is stored over the template's, through the learned entry's format. */
  function Preserve(g: Gen, template: Foe, hw: Foe): Foe {
    if g == V1 || FoeV2.IsIpv4(hw) then
      template.(w1 := hw.w1, w2 := hw.w2, w3 := hw.w3)
    else if FoeV2.IsIpv6(hw) then
      template.(w1 := hw.w1, w2 := hw.w2, w3 := hw.w3, w4 := hw.w4,
                w5 := hw.w5, w6 := hw.w6, w7 := hw.w7, w8 := hw.w8, w9 := hw.w9)
    else
      template
  }

  /** The class of service of a slot: its low two index bits, times two. */
  function Pcp(slot: nat): bv16 {
    var c := slot % 4;
    if c == 0 then 0 else if c == 1 then 2 else if c == 2 then 4 else 6
  }

  function SpreadVlan1(vlan1: bv16, slot: nat): bv16 {
    if vlan1 & VLAN_PRIO_MASK == VLAN_PRIO_MASK then (vlan1 & !VLAN_PRIO_MASK) | (Pcp(slot) << 13) else vlan1
  }

  /** PPEv1 spreads internally tagged flows over the classes of service while Ralink DSA is active. */
  function Spread(g: Gen, e: Foe, slot: nat, dsa: bool): Foe {
    if g == V1 && dsa then e.(w8 := Pack16(Lo16(e.w8), SpreadVlan1(Hi16(e.w8), slot))) else e
  }

  /** Information block 1 as it is published: current timestamp, TTL and BIND. */
  function FinalIb1(g: Gen, ib1: bv32, timestamp: bv32): bv32 {
    (ib1 & !(TimestampMask(g) | IB1_TTL | IB1_STATE)) | (timestamp & TimestampMask(g)) | IB1_TTL | BIND
  }

  function Promoted(g: Gen, template: Foe, hw: Foe, slot: nat, dsa: bool, timestamp: bv32): Foe {
    var e := Spread(g, Preserve(g, template, hw), slot, dsa);
    e.(w0 := FinalIb1(g, e.w0, timestamp))
  }

  /** PPEv1 zeroes a withdrawn entry; PPEv2 only makes it INVALID. */
  function Withdrawn(g: Gen, e: Foe): Foe {
    if g == V1 then ZERO_FOE else e.(w0 := e.w0 & !IB1_STATE)
  }

  /** Clearing leaves an entry INVALID: all zero on PPEv1, and as it was but for the state field on PPEv2. */
  ghost predicate Invalidated(g: Gen, before: Foe, after: Foe) {
    && after.w0 & 0x3000_0000 == 0
    && (g == V1 ==> after == ZERO_FOE)
    && (g == V2 ==> after.(w0 := 0) == before.(w0 := 0) && after.w0 & 0xcfff_ffff == before.w0 & 0xcfff_ffff)
  }

  lemma ClearedState(w: bv32)
    ensures (w & !IB1_STATE) & 0x3000_0000 == 0 && (w & !IB1_STATE) & 0xcfff_ffff == w & 0xcfff_ffff
  {}

  lemma WithdrawnIsInvalid(g: Gen, e: Foe)
    ensures Invalidated(g, e, Withdrawn(g, e)) && StateOf(Withdrawn(g, e)) == INVALID
  {
    ClearedState(e.w0);
  }

  /** Information block 1 without the fields that publication and ageing write. */
  function KeptIb1(g: Gen, ib1: bv32): bv32 { ib1 & !(TimestampMask(g) | IB1_TTL | IB1_STATE) }

  /** The word of dmac_hi and vlan1 without the VLAN priority. */
  function BelowPriority(w: bv32): bv32 { w & 0x1fff_ffff }

  /** An entry without timestamp, TTL, state and, for PPEv1, the VLAN priority. */
  function Kept(g: Gen, e: Foe): Foe {
    e.(w0 := KeptIb1(g, e.w0), w8 := if g == V1 then BelowPriority(e.w8) else e.w8)
  }

  /** The entry agrees with the template in everything that publication keeps. */
  predicate CarriesTemplate(g: Gen, e: Foe, template: Foe) { Kept(g, e) == Kept(g, template) }

  lemma FinalIb1Kept(g: Gen, ib1: bv32, timestamp: bv32)
    ensures var r := FinalIb1(g, ib1, timestamp); KeptIb1(g, r) == KeptIb1(g, ib1) && StateBits(r) == BIND
  {}

  lemma PriorityAboveRest(w: bv32, pcp: bv16)
    ensures BelowPriority(Pack16(Lo16(w), (Hi16(w) & !VLAN_PRIO_MASK) | (pcp << 13))) == BelowPriority(w)
  {}

  lemma SpreadKeepsRest(w: bv32, slot: nat)
    ensures BelowPriority(Pack16(Lo16(w), SpreadVlan1(Hi16(w), slot))) == BelowPriority(w)
  {
    hide Pack16, Lo16, Hi16, BelowPriority, Pcp;
    PriorityAboveRest(w, Pcp(slot));
    PackOfHalves(w);
  }

  /** Storing the learned tuple is a no-op: the template of a flow already holds it. */
  lemma PreserveIsNoOp(g: Gen, template: Foe, hw: Foe)
    requires KeyOf(g, hw).Some? && KeyOf(g, template) == KeyOf(g, hw)
    ensures Preserve(g, template, hw) == template
  {
    hide FoeV1.KeyOf, FoeV2.KeyOf;
    if g == V1 {
      FoeV1.KeyDeterminesTuple(template, hw);
    } else {
      FoeV2.KeyDeterminesTuple(template, hw);
    }
  }

  lemma SpreadCarries(g: Gen, e: Foe, slot: nat, dsa: bool)
    ensures CarriesTemplate(g, Spread(g, e, slot, dsa), e) && Spread(g, e, slot, dsa).w0 == e.w0
  {
    hide KeptIb1, BelowPriority, SpreadVlan1, Pack16, Lo16, Hi16;
    SpreadKeepsRest(e.w8, slot);
  }

  lemma FinalCarries(g: Gen, e: Foe, timestamp: bv32)
    ensures var f := e.(w0 := FinalIb1(g, e.w0, timestamp)); CarriesTemplate(g, f, e) && StateOf(f) == BIND
  {
    hide KeptIb1, BelowPriority, StateBits, FinalIb1;
    FinalIb1Kept(g, e.w0, timestamp);
  }

  lemma PromotedIb1(g: Gen, template: Foe, hw: Foe, slot: nat, dsa: bool, timestamp: bv32)
    ensures Promoted(g, template, hw, slot, dsa, timestamp).w0 == FinalIb1(g, template.w0, timestamp)
  {
    hide FinalIb1, Preserve, Spread, CarriesTemplate;
    PreserveKeepsIb1(g, template, hw);
    SpreadCarries(g, Preserve(g, template, hw), slot, dsa);
  }

  lemma PreserveKeepsIb1(g: Gen, template: Foe, hw: Foe)
    ensures Preserve(g, template, hw).w0 == template.w0
  {
    hide FoeV2.IsIpv4, FoeV2.IsIpv6;
    var r := Preserve(g, template, hw);
    if g == V1 || FoeV2.IsIpv4(hw) {
      assert r == template.(w1 := hw.w1, w2 := hw.w2, w3 := hw.w3);
    } else if !FoeV2.IsIpv6(hw) {
      assert r == template;
    }
  }

  /** A promoted entry is a BIND that carries its template. */
  lemma PromotedCarries(g: Gen, template: Foe, hw: Foe, slot: nat, dsa: bool, timestamp: bv32)
    requires KeyOf(g, hw).Some? && KeyOf(g, template) == KeyOf(g, hw)
    ensures var e := Promoted(g, template, hw, slot, dsa, timestamp);
            StateOf(e) == BIND && CarriesTemplate(g, e, template)
  {
    hide KeyOf, StateOf, Preserve, FinalIb1, Kept, Spread;
    PreserveIsNoOp(g, template, hw);
    SpreadCarries(g, template, slot, dsa);
    FinalCarries(g, Spread(g, template, slot, dsa), timestamp);
  }

  lemma TypeAndUdpBits(g: Gen, a: bv32, b: bv32)
    requires KeptIb1(g, a) == KeptIb1(g, b)
    ensures a & IB1_UDP == b & IB1_UDP
    ensures g == V1 ==> a & FoeV1.IB1_PKT_TYPE == b & FoeV1.IB1_PKT_TYPE
    ensures g == V2 ==> a & FoeV2.IB1_PKT_TYPE == b & FoeV2.IB1_PKT_TYPE
  {}

  lemma MacBytesBelowPriority(a: bv32, b: bv32)
    requires BelowPriority(a) == BelowPriority(b)
    ensures Byte0(a) == Byte0(b) && Byte1(a) == Byte1(b)
  {}

  /** An entry that carries a template has its key. */
  lemma CarriedKey(g: Gen, e: Foe, template: Foe)
    requires CarriesTemplate(g, e, template)
    ensures KeyOf(g, e) == KeyOf(g, template)
  {
    hide Swap16, Swap32, Lo16, Hi16, KeptIb1, BelowPriority;
    TypeAndUdpBits(g, e.w0, template.w0);
  }

  /** An entry that carries a template makes its rewrite. */
  lemma CarriedRewrite(g: Gen, e: Foe, template: Foe, p: Packet)
    requires CarriesTemplate(g, e, template) && p.Valid()
    ensures HwRewrite(g, e, p) == HwRewrite(g, template, p)
  {
    hide Byte0, Byte1, Byte2, Byte3, Lo16, Hi16, KeptIb1, BelowPriority, BigEndian32, BigEndian16, Splice;
    TypeAndUdpBits(g, e.w0, template.w0);
    if g == V1 {
      MacBytesBelowPriority(e.w8, template.w8);
    }
  }
}
