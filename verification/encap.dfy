/** What a compiled template tells the engine beside addresses and ports: VLAN tag, PPPoE session, output port. */
module Encap {
  import opened Wire
  import opened Flow
  import opened Foe
  import opened Topology
  import opened Pedit
  import opened Generation
  import opened Acceptance
  import opened Protocol
  import opened Paths
  import opened Runs
  import FoeV1
  import FoeV2

  // ---- Which outputs can be prepared ----

  /** The output is the frame engine, or a port of the supported tagger whose tag is known. */
  predicate Reachable(g: Gen, link: Link, egress: Egress) {
    match egress
    case NotDsa(isFrameEngine) => isFrameEngine
    case DsaPort(ralinkTag, index, bridge, _) =>
      && ralinkTag && (g == V2 ==> index <= 5)
      && (bridge.VlanAware? ==> bridge.pvid.Ok? || link.vlan.push || (g == V2 && link.vlan.pop))
  }

  predicate FamilyOk(g: Gen, data: FlowData) {
    || data.tuple.nProto == HTONS_IP
    || (g == V2 && data.tuple.nProto == HTONS_IPV6 && data.rewritten == InitialData(data.tuple).rewritten)
  }

  /** prepare() succeeds exactly for a family of its generation, an 802.1Q push if any, and a reachable output. */
  lemma PreparedExactly(g: Gen, data: FlowData, egress: Egress)
    ensures Prepared(g, data, egress).Ok? <==>
              && FamilyOk(g, data) && (data.link.vlan.push ==> data.link.vlan.proto == HTONS_8021Q)
              && Reachable(g, data.link, egress)
  {
    hide FoeV1.Built, FoeV2.BuiltIpv4, FoeV2.BuiltIpv6, FoeV1.InternalTci, FoeV2.VlanTci;
  }

  // ---- PPEv1 ----

  // The fields of the first information block by bit position, as FIELD_GET reads them.
  function Bits16(w: bv32): bv32 { (w >> 16) & 3 }
  function Bits18(w: bv32): bv32 { (w >> 18) & 3 }
  function Bits20(w: bv32): bv32 { (w >> 20) & 3 }
  function Bits22(w: bv32): bv32 { (w >> 22) & 3 }

  /** TTL and keepalive are set; the timestamp is left for publication. */
  predicate PolicyBits1(w: bv32) { w & 0x0300_ffff == 0x0300_0000 }

  /** A tag with priority 7. */
  function Seven(vid: bv16): bv16 { vid | (7 << 13) }

  lemma Ib1Fields1(key: Key, out: FoeV1.Output)
    ensures var w := FoeV1.BuiltIb1(key, out);
            && Bits16(w) == FoeV1.Code(out.vlan1Action) && Bits18(w) == FoeV1.Code(out.vlan2Action) && Bits20(w) == 0
            && Bits22(w) == (if out.pppoe.Some? then 2 else 3) && PolicyBits1(w)
  {}

  /** The tag word and the action of a PPEv1 template: none is 0, modify 1, insert 2, delete 3. */
  predicate Tagged1(e: Foe, action: bv32, tci: bv16) { Bits16(e.w0) == action && Hi16(e.w8) == tci }

  /** The second tag's action, and the PPPoE action and session. */
  predicate Session1(e: Foe, vlan2: bv32, action: bv32, sid: bv16) {
    Bits18(e.w0) == vlan2 && Bits20(e.w0) == 0 && Bits22(e.w0) == action && Hi16(e.w10) == sid && PolicyBits1(e.w0)
  }

  /** The fields that the builder fills from the resolved output. */
  lemma OutputFields1(data: FlowData, out: FoeV1.Output)
    ensures var e := FoeV1.Built(data, out);
            && Tagged1(e, FoeV1.Code(out.vlan1Action), FoeV1.BuiltVlan1(out))
            && Session1(e, FoeV1.Code(out.vlan2Action), if out.pppoe.Some? then 2 else 3, FoeV1.BuiltPppoe(out))
            && e.w4 == FoeV1.BuiltIb2(out)
  {
    hide FoeV1.BuiltIb1, FoeV1.BuiltIb2, FoeV1.Code, Pack16, Hi16, Half, Bits16, Bits18, Bits20, Bits22, PolicyBits1;
    var eth := data.link.eth;
    Ib1Fields1(data.tuple, out);
    HalvesOfPack(Half(eth[1], eth[0]), FoeV1.BuiltVlan1(out));
    HalvesOfPack(Half(eth[7], eth[6]), FoeV1.BuiltPppoe(out));
  }

  predicate Aware(egress: Egress) { egress.DsaPort? && egress.bridge.VlanAware? }

  /** PPEv1: the tag is the rule's push where that decides it, the bridge's default on a VLAN-aware port, and the
      switch driver's own, marked with priority 7, on other ports. Sessions and the output port are in their fields;
      the port is 1, or 2 for a switch port without a bridge, with the force bit below it. */
  lemma Template1(data: FlowData, egress: Egress)
    requires Prepared(V1, data, egress).Ok?
    ensures var e, link := Prepared(V1, data, egress).value, data.link;
            && (if InternalTag(egress) then Tagged1(e, 2, Seven(InternalVid(egress)))
                else if link.vlan.push then Tagged1(e, if link.vlan.pop then 1 else 2, link.vlan.vid)
                else if link.vlan.pop then Tagged1(e, 3, 0)
                else if Aware(egress) then egress.bridge.pvid.Ok? && Tagged1(e, 2, egress.bridge.pvid.value)
                else Tagged1(e, 0, 0))
            && Session1(e, if Aware(egress) && link.vlan.push then 3 else 0,
                        if link.pppoe.push then 2 else 3, if link.pppoe.push then link.pppoe.sid else 0)
            && e.w4 == if egress.DsaPort? && egress.bridge.NoBridge? then 5 else 3
  {
    hide FoeV1.Built, Tagged1, Session1, FoeV1.InternalTci, Seven, FoeV1.BuiltIb2;
    var out := FoeV1.ResolveOutput(data.link, egress).value;
    OutputFields1(data, out);
    PortWords(out);
    if InternalTag(egress) { SevenMarks(InternalVid(egress)); }
  }

  lemma PortWords(out: FoeV1.Output)
    ensures out.dp == 1 ==> FoeV1.BuiltIb2(out) == 3
    ensures out.dp == 2 ==> FoeV1.BuiltIb2(out) == 5
  {}

  lemma SevenMarks(vid: bv16)
    ensures FoeV1.InternalTci(vid) == Seven(vid)
  {}

  // ---- PPEv2 ----

  function Layers(w: bv32): bv32 { (w >> 16) & 7 }
  function PppoeBit(w: bv32): bv32 { (w >> 19) & 1 }

  /** TTL and keepalive are set, the cache and removal policies are not; the timestamp is left for publication. */
  predicate PolicyBits2(w: bv32) { w & 0x01f0_ffff == 0x0100_8000 }

  lemma Ib1Fields2(key: Key, out: FoeV2.Output, pktType: bv32)
    requires pktType == FoeV2.TYPE_IPV4_HNAPT || pktType == FoeV2.TYPE_IPV6_5T
    ensures var w := FoeV2.BuiltIb1(key, out, pktType);
            Layers(w) == (if out.vlanLayers == 0 then 0 else 1) && PppoeBit(w) == (if out.pppoe.Some? then 1 else 0) && PolicyBits2(w)
  {}

  // The words that the two descriptor formats place differently.
  function TagWord(e: Foe, ip4: bool): bv32 { if ip4 then e.w11 else e.w15 }
  function SessionWord(e: Foe, ip4: bool): bv32 { if ip4 then e.w15 else e.w19 }
  function Ib2Word(e: Foe, ip4: bool): bv32 { if ip4 then e.w4 else e.w14 }

  /** One tag layer with this TCI, or none. */
  predicate Tagged2(e: Foe, ip4: bool, tci: Option<bv16>) {
    && Layers(e.w0) == (if tci.Some? then 1 else 0) && Lo16(TagWord(e, ip4)) == (if tci.Some? then tci.value else 0)
  }

  predicate Session2(e: Foe, ip4: bool, sid: Option<bv16>) {
    && PppoeBit(e.w0) == (if sid.Some? then 1 else 0) && Lo16(SessionWord(e, ip4)) == (if sid.Some? then sid.value else 0)
  }

  /** The ether type: a session's over a tag's over the family's; the IPv6 builder names a tag's only. */
  predicate Typed2(e: Foe, ip4: bool, tag: bool, session: bool) {
    Hi16(TagWord(e, ip4)) == if ip4 && session then 0x8864 else if tag then 0x8100 else if ip4 then 0x0800 else 0
  }

  /** The forced port index in the low four bits, and the groups for metering and accounting switched off. */
  predicate Forced2(e: Foe, ip4: bool, fpidx: bv32) { Ib2Word(e, ip4) == ForcedWord(fpidx) }

  function ForcedWord(fpidx: bv32): bv32 { fpidx | (0x3f << 12) | (0x3f << 18) }

  lemma OutputFields4(data: FlowData, out: FoeV2.Output)
    ensures var e, tag := FoeV2.BuiltIpv4(data, out), if out.vlanLayers > 0 then Option.Some(out.vlan1) else None;
            Tagged2(e, true, tag) && Session2(e, true, out.pppoe) && PolicyBits2(e.w0) && Typed2(e, true, tag.Some?, out.pppoe.Some?) && Forced2(e, true, out.fpidx)
  {
    hide FoeV2.BuiltIb1, FoeV2.BuiltIb2, ForcedWord, Pack16, Lo16, Hi16, Half, Layers, PppoeBit, PolicyBits2, Swap16, Swap32, FoeV2.MacHigh;
    Ib1Fields2(data.tuple, out, FoeV2.TYPE_IPV4_HNAPT);
    HalvesOfPack(FoeV2.BuiltVlan1(out), FoeV2.BuiltEtype4(out));
    HalvesOfPack(FoeV2.BuiltPppoe(out), Half(data.link.eth[11], data.link.eth[10]));
    Groups(out);
  }

  lemma OutputFields6(data: FlowData, out: FoeV2.Output)
    ensures var e, tag := FoeV2.BuiltIpv6(data, out), if out.vlanLayers > 0 then Option.Some(out.vlan1) else None;
            Tagged2(e, false, tag) && Session2(e, false, out.pppoe) && PolicyBits2(e.w0) && Typed2(e, false, tag.Some?, out.pppoe.Some?) && Forced2(e, false, out.fpidx)
  {
    hide FoeV2.BuiltIb1, FoeV2.BuiltIb2, ForcedWord, Pack16, Lo16, Hi16, Half, Layers, PppoeBit, PolicyBits2, Swap16, Swap32, FoeV2.MacHigh;
    Ib1Fields2(data.tuple, out, FoeV2.TYPE_IPV6_5T);
    HalvesOfPack(FoeV2.BuiltVlan1(out), FoeV2.BuiltEtype6(out));
    HalvesOfPack(FoeV2.BuiltPppoe(out), Half(data.link.eth[11], data.link.eth[10]));
    Groups(out);
  }

  lemma Groups(out: FoeV2.Output)
    ensures FoeV2.BuiltIb2(out) == ForcedWord(out.fpidx)
  {
    hide FoeV2.ForcedPort, ForcedWord;
    GroupBits(out.fpidx);
  }

  lemma GroupBits(fpidx: bv32)
    ensures FoeV2.ForcedPort(fpidx) == ForcedWord(fpidx)
  {}

  /** The TCI of section 9.6 of IEEE 802.1Q-2018: priority over VID. */
  predicate IsTci(tci: bv16, vid: bv16, prio: bv8) { tci & 0x0fff == vid & 0x0fff && tci >> 13 == (prio & 7) as bv16 && tci & 0x1000 == 0 }

  lemma TciFields(vid: bv16, prio: bv8)
    ensures IsTci(FoeV2.VlanTci(vid, prio), vid, prio)
  {}

  /** Which tag a PPEv2 output carries: the rule's push with its priority where that decides it, none after a pop on a
      VLAN-aware port, that port's default otherwise, and the switch driver's own on other ports. */
  predicate IsTag2(tag: Option<bv16>, link: Link, egress: Egress) {
    if InternalTag(egress) then tag == Option.Some(InternalVid(egress))
    else if link.vlan.push then tag.Some? && IsTci(tag.value, link.vlan.vid, link.vlan.prio)
    else if Aware(egress) && !link.vlan.pop then egress.bridge.pvid.Ok? && tag == Option.Some(egress.bridge.pvid.value)
    else tag == None
  }

  ghost predicate Fields2(e: Foe, ip4: bool, tag: Option<bv16>, sid: Option<bv16>, fpidx: bv32) {
    && Tagged2(e, ip4, tag) && Session2(e, ip4, sid) && PolicyBits2(e.w0) && Typed2(e, ip4, tag.Some?, sid.Some?)
    && Forced2(e, ip4, fpidx)
  }

  function SessionId(link: Link): Option<bv16> { if link.pppoe.push then Option.Some(link.pppoe.sid) else None }

  /** PPEv2, both families: tag, session, ether type and port are in their fields; a switch port is forced by its
      index, anything else is left to lookup. */
  lemma Template2(data: FlowData, egress: Egress)
    requires Prepared(V2, data, egress).Ok?
    ensures exists tag ::
              && Fields2(Prepared(V2, data, egress).value, data.tuple.nProto == HTONS_IP, tag, SessionId(data.link),
                         if egress.DsaPort? then egress.index else 8)
              && IsTag2(tag, data.link, egress)
  {
    hide FoeV2.BuiltIpv4, FoeV2.BuiltIpv6, Fields2, FoeV2.VlanTci, IsTci;
    var out := FoeV2.ResolveOutput(data.link, egress).value;
    var tag := if out.vlanLayers > 0 then Option.Some(out.vlan1) else None;
    TciFields(data.link.vlan.vid, data.link.vlan.prio);
    OutputFields2(data, out, data.tuple.nProto == HTONS_IP);
    assert IsTag2(tag, data.link, egress);
  }

  lemma OutputFields2(data: FlowData, out: FoeV2.Output, ip4: bool)
    ensures Fields2(if ip4 then FoeV2.BuiltIpv4(data, out) else FoeV2.BuiltIpv6(data, out), ip4,
                    if out.vlanLayers > 0 then Option.Some(out.vlan1) else None, out.pppoe, out.fpidx)
  {
    hide FoeV2.BuiltIpv4, FoeV2.BuiltIpv6, Tagged2, Session2, Typed2, Forced2, PolicyBits2;
    if ip4 { OutputFields4(data, out); } else { OutputFields6(data, out); }
  }

  // ---- From the rule to the template ----

  /** A rule compiles exactly if it is accepted, its family and push suit the generation, and its device can be reached. */
  lemma CompiledExactly(g: Gen, rule: Rule, topology: Device -> Egress)
    ensures Compiled(g, rule, topology).Ok? <==>
              && Parsed(rule).Ok? && Parsed(rule).value.link.outDev.Some?
              && var data := Parsed(rule).value;
                 FamilyOk(g, data) && (data.link.vlan.push ==> data.link.vlan.proto == HTONS_8021Q)
                 && Reachable(g, data.link, topology(data.link.outDev.value))
  {
    hide Parsed, Prepared, FamilyOk, Reachable;
    if Parsed(rule).Ok? {
      ParsedHasDevice(rule);
      PreparedExactly(g, Parsed(rule).value, topology(Parsed(rule).value.link.outDev.value));
    }
  }

  /** The tag field that the rule's push decides. */
  predicate PushedTag(g: Gen, e: Foe, ip4: bool, vid: bv16, prio: bv8, popped: bool) {
    if g == V1 then Tagged1(e, if popped then 1 else 2, vid)
    else Tagged2(e, ip4, Option.Some(Lo16(TagWord(e, ip4)))) && IsTci(Lo16(TagWord(e, ip4)), vid, prio)
  }

  predicate SessionOf(g: Gen, e: Foe, ip4: bool, sid: Option<bv16>) {
    if g == V1 then Bits22(e.w0) == (if sid.Some? then 2 else 3) && Hi16(e.w10) == (if sid.Some? then sid.value else 0)
    else Session2(e, ip4, sid)
  }

  ghost predicate HasRedirect(acts: seq<Action>, dev: Device) { Redirect(Option.Some(dev)) in acts }

  /** For both generations: a push whose device does not carry the switch driver's own tag is the template's tag, with
      its VID, and a PPPoE push is the template's session, or there is none. */
  lemma CompiledEncap(g: Gen, rule: Rule, topology: Device -> Egress, dev: Device)
    requires Compiled(g, rule, topology).Ok? && HasRedirect(rule.actions, dev)
    ensures var e, ip4 := Compiled(g, rule, topology).value.foe, rule.flow.nProto == HTONS_IP;
            && (forall a :: a in rule.actions && a.VlanPush? && !InternalTag(topology(dev)) ==>
                  PushedTag(g, e, ip4, a.vid, a.prio, Any(rule.actions, IsPop)))
            && (forall a :: a in rule.actions && a.PppoePush? ==> SessionOf(g, e, ip4, Option.Some(a.sid)))
            && (!Any(rule.actions, IsPppoe) ==> SessionOf(g, e, ip4, None))
  {
    hide Parsed, Prepared, Tagged1, Layers, Lo16, TagWord, IsTci, Session1, Session2, Typed2, Forced2, Any, MacByte, Once;
    ParsedLink(rule);
    ParsedFamily(rule);
    var data := Parsed(rule).value;
    assert Redirect(Option.Some(dev)).Redirect?;
    assert data.link.outDev == Option.Some(dev);
    var ip4 := rule.flow.nProto == HTONS_IP;
    if g == V1 {
      Template1(data, topology(dev));
      SessionFields1(Prepared(V1, data, topology(dev)).value);
    } else {
      Template2(data, topology(dev));
      var tag :| Fields2(Prepared(V2, data, topology(dev)).value, ip4, tag, SessionId(data.link),
                         if topology(dev).DsaPort? then topology(dev).index else 8) && IsTag2(tag, data.link, topology(dev));
    }
  }

  lemma SessionFields1(e: Foe)
    ensures forall v, a, sid :: Session1(e, v, a, sid) ==> Bits22(e.w0) == a && Hi16(e.w10) == sid
  {}

  lemma ParsedFamily(rule: Rule)
    requires Parsed(rule).Ok?
    ensures Parsed(rule).value.tuple.nProto == rule.flow.nProto
  {
    PartsOfParsed(rule);
    MatchAccepted(rule.flow);
  }

  // ---- In every run ----

  /** The tag with the pushed VID, whatever its priority. */
  predicate PushedVid(g: Gen, e: Foe, ip4: bool, vid: bv16, popped: bool) {
    if g == V1 then Bits16(e.w0) == (if popped then 1 else 2) && VidBits(Hi16(e.w8)) == VidBits(vid)
    else Layers(e.w0) == 1 && VidBits(Lo16(TagWord(e, ip4))) == VidBits(vid)
  }

  function VidBits(tci: bv16): bv16 { tci & 0x0fff }

  lemma TagHasVid(g: Gen, e: Foe, ip4: bool, vid: bv16, prio: bv8, popped: bool)
    requires PushedTag(g, e, ip4, vid, prio, popped)
    ensures PushedVid(g, e, ip4, vid, popped)
  {
    hide Layers, Bits16, Lo16, Hi16, TagWord;
  }

  lemma KeptFields(g: Gen, a: bv32, b: bv32)
    requires KeptIb1(g, a) == KeptIb1(g, b)
    ensures Bits16(a) == Bits16(b) && Bits22(a) == Bits22(b)
    ensures Layers(a) == Layers(b) && PppoeBit(a) == PppoeBit(b)
  {}

  lemma VidBelow(a: bv32, b: bv32)
    requires BelowPriority(a) == BelowPriority(b)
    ensures VidBits(Hi16(a)) == VidBits(Hi16(b))
  {}

  /** Promotion and ageing keep a template's tag and session. */
  lemma CarriedEncap(g: Gen, e: Foe, template: Foe, ip4: bool, vid: bv16, popped: bool, sid: Option<bv16>)
    requires CarriesTemplate(g, e, template)
    ensures PushedVid(g, template, ip4, vid, popped) ==> PushedVid(g, e, ip4, vid, popped)
    ensures SessionOf(g, template, ip4, sid) ==> SessionOf(g, e, ip4, sid)
  {
    hide KeptIb1, BelowPriority, Bits16, Bits22, Layers, PppoeBit, VidBits, Lo16, Hi16;
    KeptFields(g, e.w0, template.w0);
    if g == V1 { VidBelow(e.w8, template.w8); }
  }

  /** The slot carries what the rule of flow c pushes. */
  ghost predicate Encapsulates(cfg: Config, s: State, i: nat, c: Cookie)
    requires i < |s.foe|
  {
    && c in s.tuples && c in s.flows
    && var rule := s.flows[c].rule;
       var e, ip4 := s.foe[i], rule.flow.nProto == HTONS_IP;
       && (forall dev, a :: HasRedirect(rule.actions, dev) && a in rule.actions && a.VlanPush? && !InternalTag(cfg.topology(dev)) ==>
             PushedVid(cfg.gen, e, ip4, a.vid, Any(rule.actions, IsPop)))
       && (forall a :: a in rule.actions && a.PppoePush? ==> SessionOf(cfg.gen, e, ip4, Option.Some(a.sid)))
       && (!Any(rule.actions, IsPppoe) ==> SessionOf(cfg.gen, e, ip4, None))
  }

  /** In every run, while the engine runs, a BIND slot carries the VLAN and the session that the rule of a linked flow
      with its tuple pushes. */
  lemma BoundEncap(cfg: Config, states: seq<State>, evs: seq<Event>, k: nat, i: nat)
    requires IsRun(cfg, states, evs) && k < |states| && states[k].phase == Running
    requires i < |states[k].foe| && StateOf(states[k].foe[i]) == BIND
    ensures exists c :: Owns(cfg.gen, states[k], c, i) && Encapsulates(cfg, states[k], i, c)
  {
    hide Step, Initial, Inv, StateOf, Encapsulates, Owns;
    RunInv(cfg, states, evs, k);
    BoundIsOwned(cfg, states[k], i);
    var c :| Owns(cfg.gen, states[k], c, i);
    OwnerEncapsulates(cfg, states[k], i, c);
  }

  lemma OwnerEncapsulates(cfg: Config, s: State, i: nat, c: Cookie)
    requires Inv(cfg, s) && Owns(cfg.gen, s, c, i)
    ensures Encapsulates(cfg, s, i, c)
  {
    hide StateOf, KeyOf, Compiled, CarriesTemplate, TablesAgree, FlowsAgree, PhaseAgrees, Any, PushedTag, PushedVid, SessionOf, HasRedirect;
    var rule, e, t := s.flows[c].rule, s.foe[i], s.flows[c].template;
    var g, ip4, popped := cfg.gen, rule.flow.nProto == HTONS_IP, Any(rule.actions, IsPop);
    RuleHasRedirect(cfg, rule);
    var some :| HasRedirect(rule.actions, some);
    CompiledEncap(g, rule, cfg.topology, some);
    forall dev, a | HasRedirect(rule.actions, dev) && a in rule.actions && a.VlanPush? && !InternalTag(cfg.topology(dev))
      ensures PushedVid(g, e, ip4, a.vid, popped)
    {
      CompiledEncap(g, rule, cfg.topology, dev);
      TagHasVid(g, t, ip4, a.vid, a.prio, popped);
      CarriedEncap(g, e, t, ip4, a.vid, popped, None);
    }
    forall a | a in rule.actions && a.PppoePush? ensures SessionOf(g, e, ip4, Option.Some(a.sid)) {
      CarriedEncap(g, e, t, ip4, 0, popped, Option.Some(a.sid));
    }
    CarriedEncap(g, e, t, ip4, 0, popped, None);
  }

  lemma RuleHasRedirect(cfg: Config, rule: Rule)
    requires Compiled(cfg.gen, rule, cfg.topology).Ok?
    ensures exists dev :: HasRedirect(rule.actions, dev)
  {
    hide Parsed, Prepared, Once, MacByte;
    ParsedLink(rule);
    KindIn(rule.actions, IsRedirect);
    var a :| a in rule.actions && IsRedirect(a);
    assert a == Redirect(Option.Some(a.dev.value));
    assert HasRedirect(rule.actions, a.dev.value);
  }
}
