/** What the driver learns about an output device from the bridge and switch layers. */
module Topology {
  import opened Wire

  datatype Bridge =
    | NoBridge
    | VlanAware(pvid: Result<bv16>)
    | VlanUnaware(bridgeVid: bv16)

  /** A switch port (its tagger, index, bridge and standalone VID), or any other device. */
  datatype Egress =
    | NotDsa(isFrameEngine: bool)
    | DsaPort(ralinkTag: bool, index: bv32, bridge: Bridge, standaloneVid: bv16)

  const VLAN_VID_MASK: bv16 := 0x0fff
  const VLAN_PRIO_MASK: bv16 := 0xe000

  predicate IsVid(v: bv16) { v & VLAN_VID_MASK == v }

  /** Every VID the bridge and tag_8021q layers hand out has twelve bits. */
  predicate ValidEgress(e: Egress) {
    e.DsaPort? ==>
      && IsVid(e.standaloneVid)
      && (e.bridge.VlanAware? && e.bridge.pvid.Ok? ==> IsVid(e.bridge.pvid.value))
      && (e.bridge.VlanUnaware? ==> IsVid(e.bridge.bridgeVid))
  }

  /** The output carries a tag of the switch driver itself, not one that a rule or a bridge chose. */
  predicate InternalTag(egress: Egress) { egress.DsaPort? && !egress.bridge.VlanAware? }

  function InternalVid(egress: Egress): bv16
    requires InternalTag(egress)
  {
    match egress.bridge
    case VlanUnaware(vid) => vid
    case NoBridge => egress.standaloneVid
  }
}
