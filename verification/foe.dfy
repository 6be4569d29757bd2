/** A flow-offload-engine table entry: the words both descriptor generations share. */
module Foe {
  import opened Wire

  /** Descriptor memory as 32-bit words. PPEv1 entries use w0 to w15, PPEv2 entries all twenty.

      | word     | PPEv1 IPv4            | PPEv2 IPv4            | PPEv2 IPv6 5-tuple    |
      | w0       | info_blk1             | info_blk1             | info_blk1             |
      | w1..w2   | sip, dip              | sip, dip              | sip[0..1]             |
      | w3       | dport, sport          | dport, sport          | sip[2]                |
      | w4       | info_blk2             | info_blk2             | sip[3]                |
      | w5..w6   | new_sip, new_dip      | new_sip, new_dip      | dip[0..1]             |
      | w7       | new_dport, new_sport  | new_dport, new_sport  | dip[2]                |
      | w8       | dmac_hi, vlan1        | resv1                 | dip[3]                |
      | w9       | dmac_lo               | resv2                 | dport, sport          |
      | w10      | smac_hi, pppoe_id     | udf                   | resv1                 |
      | w11      | smac_lo               | vlan1, etype          | resv2                 |
      | w12      | snap_ctrl, act_dp     | dmac_hi               | resv3                 |
      | w13      | vlan2, resv2          | vlan2, dmac_lo        | udf                   |
      | w14      | resv3                 | smac_hi               | info_blk2             |
      | w15      | resv4                 | pppoe_id, smac_lo     | vlan1, etype          |
      | w16      |                       |                       | dmac_hi               |
      | w17      |                       |                       | vlan2, dmac_lo        |
      | w18      |                       |                       | smac_hi               |
      | w19      |                       |                       | pppoe_id, smac_lo     | */
  datatype Foe = Foe(
    w0: bv32, w1: bv32, w2: bv32, w3: bv32, w4: bv32, w5: bv32, w6: bv32, w7: bv32, w8: bv32, w9: bv32,
    w10: bv32, w11: bv32, w12: bv32, w13: bv32, w14: bv32, w15: bv32, w16: bv32, w17: bv32, w18: bv32, w19: bv32)

  const ZERO_FOE := Foe(0, 0, 0, 0, 0, 0, 0, 0, 0, 0, 0, 0, 0, 0, 0, 0, 0, 0, 0, 0)

  // The state field and the UDP bit have the same place in both generations.
  const IB1_STATE: bv32 := 0x3000_0000
  const IB1_UDP: bv32 := 0x4000_0000
  const IB1_TTL: bv32 := 0x0100_0000

  const INVALID: bv32 := 0x0000_0000
  const UNBIND: bv32 := 0x1000_0000
  const BIND: bv32 := 0x2000_0000
  const FIN: bv32 := 0x3000_0000

  /** The state field, left in place. */
  function StateBits(ib1: bv32): bv32 { ib1 & IB1_STATE }

  function StateOf(e: Foe): bv32 { StateBits(e.w0) }
}
