/** Class-of-service spreading on PPEv1: which VLAN tags promotion may change, and how. */
module Cos {
  import opened Wire
  import opened Flow
  import opened Foe
  import opened Topology
  import opened Generation
  import opened Protocol
  import opened Runs
  import opened Paths
  import FoeV1

  /** The VLAN tag of a PPEv1 entry. */
  function Vlan1(e: Foe): bv16 { Hi16(e.w8) }

  function Vid(tci: bv16): bv16 { tci & VLAN_VID_MASK }

  function Priority(tci: bv16): bv16 { tci & VLAN_PRIO_MASK }

  lemma TagBits(v: bv16)
    requires IsVid(v)
    ensures Priority(v) == 0 && Priority(FoeV1.InternalTci(v)) == VLAN_PRIO_MASK
  {}

  lemma ZeroTag()
    ensures Priority(0) == 0
  {}

  lemma VlanOfBuilt(data: FlowData, out: FoeV1.Output)
    ensures Vlan1(FoeV1.Built(data, out)) == FoeV1.BuiltVlan1(out)
  {
    hide Hi16, Pack16, Half;
    HalvesOfPack(Half(data.link.eth[1], data.link.eth[0]), FoeV1.BuiltVlan1(out));
  }

  lemma ResolvedTag(link: Link, egress: Egress)
    requires FoeV1.ResolveOutput(link, egress).Ok? && ValidEgress(egress)
    requires link.vlan.push ==> IsVid(link.vlan.vid)
    ensures Priority(FoeV1.BuiltVlan1(FoeV1.ResolveOutput(link, egress).value))
            == if InternalTag(egress) then VLAN_PRIO_MASK else 0
  {
    hide IsVid, Priority, FoeV1.InternalTci;
    ZeroTag();
    if link.vlan.push {
      TagBits(link.vlan.vid);
    }
    if egress.DsaPort? {
      TagBits(egress.standaloneVid);
      if egress.bridge.VlanUnaware? {
        TagBits(egress.bridge.bridgeVid);
      } else if egress.bridge.VlanAware? && egress.bridge.pvid.Ok? {
        TagBits(egress.bridge.pvid.value);
      }
    }
  }

  /** A built template has priority 7 exactly on internal tags, and priority 0 on all others. */
  lemma PrioritySevenMarksInternalTags(data: FlowData, egress: Egress)
    requires FoeV1.ResolveOutput(data.link, egress).Ok? && ValidEgress(egress)
    requires data.link.vlan.push ==> IsVid(data.link.vlan.vid)
    ensures var t := FoeV1.Built(data, FoeV1.ResolveOutput(data.link, egress).value);
            Priority(Vlan1(t)) == if InternalTag(egress) then VLAN_PRIO_MASK else 0
  {
    hide Priority, Vlan1, FoeV1.Built, FoeV1.ResolveOutput, FoeV1.BuiltVlan1, IsVid;
    VlanOfBuilt(data, FoeV1.ResolveOutput(data.link, egress).value);
    ResolvedTag(data.link, egress);
  }

  lemma SpreadBits(v: bv16, pcp: bv16)
    requires pcp in {0, 2, 4, 6}
    ensures var r := (v & !VLAN_PRIO_MASK) | (pcp << 13);
            Vid(r) == Vid(v) && Priority(r) == pcp << 13 && Priority(r) != VLAN_PRIO_MASK
  {}

  /** Spreading one tag: the VID stays; the priority changes only from 7, to an even class below 7. */
  lemma SpreadTag(v: bv16, slot: nat)
    ensures Vid(SpreadVlan1(v, slot)) == Vid(v)
    ensures Priority(v) != VLAN_PRIO_MASK ==> SpreadVlan1(v, slot) == v
    ensures Priority(v) == VLAN_PRIO_MASK ==>
              Priority(SpreadVlan1(v, slot)) == Pcp(slot) << 13 != VLAN_PRIO_MASK
  {
    SpreadBits(v, Pcp(slot));
  }

  lemma PromotedVlan1(template: Foe, hw: Foe, slot: nat, dsa: bool, timestamp: bv32)
    ensures Vlan1(Promoted(V1, template, hw, slot, dsa, timestamp))
            == if dsa then SpreadVlan1(Vlan1(template), slot) else Vlan1(template)
  {
    hide Lo16, Hi16, Pack16, SpreadVlan1, FinalIb1;
    HalvesOfPack(Lo16(template.w8), SpreadVlan1(Hi16(template.w8), slot));
  }

  /** Spreading is confined: promotion keeps the template's VID, changes the priority of internal tags only,
      and while Ralink DSA is active leaves no internal tag at priority 7. */
  lemma CosIsConfined(data: FlowData, egress: Egress, hw: Foe, slot: nat, dsa: bool, timestamp: bv32)
    requires FoeV1.ResolveOutput(data.link, egress).Ok? && ValidEgress(egress)
    requires data.link.vlan.push ==> IsVid(data.link.vlan.vid)
    ensures var t := FoeV1.Built(data, FoeV1.ResolveOutput(data.link, egress).value);
            var tag, tag' := Vlan1(t), Vlan1(Promoted(V1, t, hw, slot, dsa, timestamp));
            && Vid(tag') == Vid(tag)
            && (tag' != tag ==> dsa && InternalTag(egress))
            && (dsa && InternalTag(egress) ==> PriorityIsTwice(Priority(tag'), slot % 4) && Priority(tag') != VLAN_PRIO_MASK)
  {
    hide Vid, Priority, SpreadVlan1, FoeV1.Built, FoeV1.ResolveOutput, Vlan1, Promoted, IsVid, Pcp, PriorityIsTwice;
    var t := FoeV1.Built(data, FoeV1.ResolveOutput(data.link, egress).value);
    PrioritySevenMarksInternalTags(data, egress);
    PromotedVlan1(t, hw, slot, dsa, timestamp);
    SpreadTag(Vlan1(t), slot);
    PcpPriority(slot);
    ZeroIsNotSeven();
  }

  /** The priority field, in bits 15:13, holds twice the class. */
  predicate PriorityIsTwice(priority: bv16, level: nat) {
    priority == if level == 0 then 0 else if level == 1 then 0x4000 else if level == 2 then 0x8000 else 0xc000
  }

  lemma PcpPriority(slot: nat)
    ensures PriorityIsTwice(Pcp(slot) << 13, slot % 4)
  {}

  lemma ZeroIsNotSeven()
    ensures VLAN_PRIO_MASK != 0
  {}

  lemma VidBelowPriority(a: bv32, b: bv32)
    requires BelowPriority(a) == BelowPriority(b)
    ensures Vid(Hi16(a)) == Vid(Hi16(b))
  {}

  /** Whatever ageing and promotion do, a bound entry that carries a template has the template's VID. */
  lemma CarriedVid(e: Foe, template: Foe)
    requires CarriesTemplate(V1, e, template)
    ensures Vid(Vlan1(e)) == Vid(Vlan1(template))
  {
    hide KeptIb1, BelowPriority, Hi16, Vid;
    VidBelowPriority(e.w8, template.w8);
  }

  /** In every reachable running state, the VID in a BIND slot is that of its one owner's template. */
  lemma BoundVid(cfg: Config, states: seq<State>, evs: seq<Event>, k: nat, i: nat)
    requires cfg.gen == V1 && IsRun(cfg, states, evs) && k < |states| && states[k].phase == Running
    requires i < |states[k].foe| && StateOf(states[k].foe[i]) == BIND
    ensures exists c :: Owns(V1, states[k], c, i) && Vid(Vlan1(states[k].foe[i])) == Vid(Vlan1(states[k].flows[c].template))
  {
    hide Step, Initial, StateOf, KeyOf, Kept, Vid, Vlan1, TablesAgree, FlowsAgree, FlowsCompiled;
    RunInv(cfg, states, evs, k);
    assert Owned(V1, states[k], i);
    var c :| Owns(V1, states[k], c, i);
    CarriedVid(states[k].foe[i], states[k].flows[c].template);
  }
}
