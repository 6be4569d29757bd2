/** The VLAN insertion cache: a table of slot numbers that mirrors a packed register file. */
module VlanCache {
  import opened Wire

  const SLOTS: nat := 16

  /** A twelve-bit VLAN id. */
  datatype Vid = Vid(bits: bv12)

  /** One 32-bit register holds two VLAN ids, at bits 11:0 and 27:16. */
  function Field(reg: bv32, odd: bool): Vid {
    Vid(if odd then ((reg >> 16) & 0xfff) as bv12 else (reg & 0xfff) as bv12)
  }

  /** The read-modify-write of one half. */
  function Put(reg: bv32, odd: bool, vid: Vid): bv32 {
    if odd then (reg & 0xf000_ffff) | ((vid.bits as bv32) << 16) else (reg & 0xffff_f000) | (vid.bits as bv32)
  }

  lemma PutReads(reg: bv32, odd: bool, vid: Vid)
    ensures Field(Put(reg, odd, vid), odd) == vid
  {}

  lemma PutSpares(reg: bv32, odd: bool, vid: Vid)
    ensures Field(Put(reg, odd, vid), !odd) == Field(reg, !odd)
  {}

  lemma PutKeepsUnused(reg: bv32, odd: bool, vid: Vid)
    ensures Unused(Put(reg, odd, vid)) == Unused(reg)
  {}

  /** A half-register write sets its own field, and neither the neighbour nor the unused bits notice. */
  lemma PutIsLocal(reg: bv32, odd: bool, vid: Vid)
    ensures Field(Put(reg, odd, vid), odd) == vid && Field(Put(reg, odd, vid), !odd) == Field(reg, !odd)
    ensures Unused(Put(reg, odd, vid)) == Unused(reg)
  {
    hide Put, Field, Unused;
    PutReads(reg, odd, vid);
    PutSpares(reg, odd, vid);
    PutKeepsUnused(reg, odd, vid);
  }

  function Unused(reg: bv32): bv32 { reg & 0xf000_f000 }

  const INSV: bv32 := 0x80

  /** TX4_DMA_VPRI is bits 6:4 and TX4_DMA_VIDX bits 3:0. */
  function InsertBits(slot: nat, prio: bv3): bv32
    requires slot < SLOTS
  {
    INSV | ((prio as bv32) << 4) | (slot as bv4 as bv32)
  }

  /** The slot that the hardware reads out of the descriptor. */
  function SlotOf(info4: bv32): nat { (info4 & 0xf) as bv4 as nat }

  lemma InsertBitsRoundTrip(slot: nat, prio: bv3)
    requires slot < SLOTS
    ensures var info4 := InsertBits(slot, prio);
            SlotOf(info4) == slot && info4 & INSV != 0 && ((info4 >> 4) & 0x7) as bv3 == prio
  {
    var s := slot as bv4;
    Nibble(s, prio);
  }

  lemma Nibble(s: bv4, prio: bv3)
    ensures ((INSV | ((prio as bv32) << 4) | (s as bv32)) & 0xf) as bv4 == s
    ensures (((INSV | ((prio as bv32) << 4) | (s as bv32)) >> 4) & 0x7) as bv3 == prio
    ensures (INSV | ((prio as bv32) << 4) | (s as bv32)) & INSV != 0
  {}

  class Cache {
    /** Slot number plus one; a VLAN id without a mapping is not cached. */
    var index: map<Vid, nat>
    var next: nat
    /** The register file: slot k is the low or high half of register k / 2. */
    const regs: array<bv32>

    ghost function At(slot: nat): Vid
      requires slot < SLOTS && regs.Length == SLOTS / 2
      reads regs
    {
      Field(regs[slot / 2], slot % 2 == 1)
    }

    /** Every cached id names a slot already handed out, and the register file holds the id there. */
    ghost predicate Valid()
      reads this, regs
    {
      && regs.Length == SLOTS / 2 && next <= SLOTS
      && forall vid :: vid in index ==> 1 <= index[vid] <= next && At(index[vid] - 1) == vid
    }

    constructor (regs: array<bv32>)
      requires regs.Length == SLOTS / 2
      ensures Valid() && this.regs == regs && index == map[]
    {
      this.regs := regs;
      index, next := map[], 0;
    }

    /** Opening the device forgets the table; the registers keep what they held. */
    method Open()
      requires Valid()
      modifies this
      ensures Valid() && index == map[] && next == 0
    {
      index, next := map[], 0;
    }

    /** Program one slot. Nothing cached moves, because the slot is not cached yet. */
    method WriteLocked(slot: nat, vid: Vid)
      requires Valid() && slot < SLOTS && forall v :: v in index ==> index[v] - 1 != slot
      modifies regs
      ensures Valid() && At(slot) == vid && forall k :: 0 <= k < SLOTS && k != slot ==> At(k) == old(At(k))
    {
      hide Put, Field;
      PutIsLocal(regs[slot / 2], slot % 2 == 1, vid);
      regs[slot / 2] := Put(regs[slot / 2], slot % 2 == 1, vid);
      forall k | 0 <= k < SLOTS && k != slot ensures At(k) == old(At(k)) {
        if k / 2 == slot / 2 { assert (k % 2 == 1) == !(slot % 2 == 1); }
      }
    }

    /** Make a programmed slot visible to lock-free readers. */
    method Publish(slot: nat, vid: Vid)
      requires Valid() && slot < next && At(slot) == vid
      modifies this`index
      ensures Valid() && index == old(index)[vid := slot + 1]
    {
      hide Field;
      index := index[vid := slot + 1];
    }

    /** Find or hand out a slot. Every store keeps the mirror: the number is taken, then the register is
        programmed, and only then does the id become visible. The result is the slot plus one, or zero. */
    method Alloc(vid: Vid) returns (r: nat)
      requires Valid()
      modifies this, regs
      ensures Valid() && r <= next
      ensures r == if vid in index then index[vid] else 0
      ensures index == if vid in old(index) || old(next) == SLOTS then old(index) else old(index)[vid := old(next) + 1]
      ensures next == if vid in old(index) || old(next) == SLOTS then old(next) else old(next) + 1
    {
      hide Field;
      if vid in index { return index[vid]; }
      if next >= SLOTS { return 0; }
      var slot := next;
      next := next + 1;
      WriteLocked(slot, vid);
      Publish(slot, vid);
      r := slot + 1;
    }

    /** The offload bits for a tagged packet, or nothing when the tag has to be inserted in software. What the
        hardware will find in the register that the bits select is the packet's VLAN id. */
    method Prepare(vid: Vid, prio: bv3, tagging: bool) returns (r: Option<bv32>)
      requires Valid()
      modifies this, regs
      ensures Valid()
      ensures r.Some? <==> vid in old(index) || (tagging && old(next) < SLOTS)
      ensures r.Some? ==> SlotOf(r.value) < SLOTS && At(SlotOf(r.value)) == vid && ((r.value >> 4) & 0x7) as bv3 == prio
    {
      hide Field, InsertBits, SlotOf;
      var at := if vid in index then index[vid] else 0;
      if at == 0 && tagging { at := Alloc(vid); }
      if at == 0 { return None; }
      InsertBitsRoundTrip(at - 1, prio);
      r := Some(InsertBits(at - 1, prio));
    }

    /** Distinct cached ids have distinct slots. */
    lemma DistinctSlots(v: Vid, w: Vid)
      requires Valid() && v in index && w in index && v != w
      ensures index[v] != index[w] && index[v] - 1 < SLOTS && index[w] - 1 < SLOTS
    {
      hide Field;
    }
  }
}
