/** Transmit descriptors: two segments, their lengths and last-segment marks, and how a packet fills them. */
module TxDesc {
  import opened Wire

  datatype Skb = Skb(id: nat, len: nat)

  /** How a segment was mapped, and so how it must be unmapped. */
  datatype Kind = Single | Page

  datatype Seg = Seg(kind: Kind, addr: bv32, len: bv32)

  /** struct ralink_fe_tx_desc: two addresses, a word with both lengths and the flags, offload bits. */
  datatype Desc = Desc(info1: bv32, info2: bv32, info3: bv32, info4: bv32)

  const SDL0_MASK: bv32 := 0x3fff_0000
  const SDL1_MASK: bv32 := 0x0000_3fff
  const LS0: bv32 := 0x4000_0000
  const LS1: bv32 := 0x0000_4000
  const DONE: bv32 := 0x8000_0000
  const MAP0_PAGE: bv8 := 1
  const MAP1_PAGE: bv8 := 2

  function Sdl0(info2: bv32): bv32 { (info2 & SDL0_MASK) >> 16 }
  function Sdl1(info2: bv32): bv32 { info2 & SDL1_MASK }
  function IsLs0(info2: bv32): bool { info2 & LS0 != 0 }
  function IsLs1(info2: bv32): bool { info2 & LS1 != 0 }

  /** FIELD_PREP of a length into either half. */
  function PrepSdl0(len: bv32): bv32 { (len & 0x3fff) << 16 }
  function PrepSdl1(len: bv32): bv32 { len & 0x3fff }

  predicate ValidLen(len: bv32) { 1 <= len <= 0x3fff }

  function Kind0(kinds: bv8): Kind { if kinds & MAP0_PAGE != 0 then Page else Single }
  function Kind1(kinds: bv8): Kind { if kinds & MAP1_PAGE != 0 then Page else Single }

  function Paged(kinds: bv8, bits: bv8): bv8 { kinds | bits }

  // ---- What one descriptor means ----

  /** What completion and hardware can tell from a slot: its segments with their kinds, the last-segment
      marks, the packet to release and the offload bits. Ownership and unused addresses do not show. */
  datatype Slot = Slot(segs: seq<Seg>, ls0: bool, ls1: bool, skb: Option<Skb>, info4: bv32)

  /** The segment in one of a descriptor's two places, if there is one. */
  function SegIn(kind: Kind, addr: bv32, len: bv32): seq<Seg> { if len != 0 then [Seg(kind, addr, len)] else [] }

  function Seg0(d: Desc, kinds: bv8): seq<Seg> { SegIn(Kind0(kinds), d.info1, Sdl0(d.info2)) }
  function Seg1(d: Desc, kinds: bv8): seq<Seg> { SegIn(Kind1(kinds), d.info3, Sdl1(d.info2)) }

  function Decode(d: Desc, kinds: bv8, skb: Option<Skb>): Slot {
    Slot(Seg0(d, kinds) + Seg1(d, kinds), IsLs0(d.info2), IsLs1(d.info2), skb, d.info4)
  }

  predicate IsLast(s: Slot) { s.ls0 || s.ls1 }

  // ---- Bits of the length word ----

  function Or(x: bv32, bits: bv32): bv32 { x | bits }

  lemma KeepsSdl0(x: bv32, bits: bv32)
    requires bits & SDL0_MASK == 0
    ensures Sdl0(Or(x, bits)) == Sdl0(x)
  {}

  lemma KeepsSdl1(x: bv32, bits: bv32)
    requires bits & SDL1_MASK == 0
    ensures Sdl1(Or(x, bits)) == Sdl1(x)
  {}

  lemma KeepsLs0(x: bv32, bits: bv32)
    requires bits & LS0 == 0
    ensures IsLs0(Or(x, bits)) == IsLs0(x)
  {}

  lemma KeepsLs1(x: bv32, bits: bv32)
    requires bits & LS1 == 0
    ensures IsLs1(Or(x, bits)) == IsLs1(x)
  {}

  lemma DoneIsInvisible(info2: bv32)
    ensures Sdl0(Or(info2, DONE)) == Sdl0(info2) && Sdl1(Or(info2, DONE)) == Sdl1(info2)
    ensures IsLs0(Or(info2, DONE)) == IsLs0(info2) && IsLs1(Or(info2, DONE)) == IsLs1(info2)
  {
    hide Or, Sdl0, Sdl1, IsLs0, IsLs1;
    KeepsSdl0(info2, DONE);
    KeepsSdl1(info2, DONE);
    KeepsLs0(info2, DONE);
    KeepsLs1(info2, DONE);
  }

  /** A hardware write of the ownership bit changes nothing that completion reads. */
  lemma DecodeIgnoresDone(d: Desc, kinds: bv8, skb: Option<Skb>)
    ensures Decode(d.(info2 := Or(d.info2, DONE)), kinds, skb) == Decode(d, kinds, skb)
  {
    hide Or, Sdl0, Sdl1, IsLs0, IsLs1;
    DoneIsInvisible(d.info2);
  }

  lemma ZeroBits()
    ensures Sdl0(0) == 0 && Sdl1(0) == 0 && !IsLs0(0) && !IsLs1(0)
  {}

  lemma PutSlot0(len: bv32)
    requires ValidLen(len)
    ensures Sdl0(PrepSdl0(len)) == len && Sdl1(PrepSdl0(len)) == 0
    ensures !IsLs0(PrepSdl0(len)) && !IsLs1(PrepSdl0(len))
  {}

  lemma PrepSdl1Bits(len: bv32)
    ensures PrepSdl1(len) & SDL0_MASK == 0 && PrepSdl1(len) & LS0 == 0 && PrepSdl1(len) & LS1 == 0
  {}

  lemma PutSdl1(x: bv32, len: bv32)
    requires ValidLen(len) && Sdl1(x) == 0
    ensures Sdl1(Or(x, PrepSdl1(len))) == len
  {}

  lemma PutSlot1(info2: bv32, len: bv32)
    requires ValidLen(len) && Sdl1(info2) == 0 && !IsLs1(info2)
    ensures Sdl1(Or(info2, PrepSdl1(len))) == len && Sdl0(Or(info2, PrepSdl1(len))) == Sdl0(info2)
    ensures IsLs0(Or(info2, PrepSdl1(len))) == IsLs0(info2) && !IsLs1(Or(info2, PrepSdl1(len)))
  {
    hide Or, Sdl0, Sdl1, IsLs0, IsLs1, PrepSdl1;
    PrepSdl1Bits(len);
    PutSdl1(info2, len);
    KeepsSdl0(info2, PrepSdl1(len));
    KeepsLs0(info2, PrepSdl1(len));
    KeepsLs1(info2, PrepSdl1(len));
  }

  lemma SetLs(x: bv32)
    ensures IsLs0(Or(x, LS0)) && IsLs1(Or(x, LS1))
  {}

  lemma OrZero(bits: bv32)
    ensures Or(0, bits) == bits
  {}

  lemma MarkLs0(info2: bv32)
    ensures IsLs0(Or(info2, LS0)) && IsLs1(Or(info2, LS0)) == IsLs1(info2)
    ensures Sdl0(Or(info2, LS0)) == Sdl0(info2) && Sdl1(Or(info2, LS0)) == Sdl1(info2)
  {
    hide Or, Sdl0, Sdl1, IsLs0, IsLs1;
    KeepsSdl0(info2, LS0);
    KeepsSdl1(info2, LS0);
    KeepsLs1(info2, LS0);
    SetLs(info2);
  }

  lemma MarkLs1(info2: bv32)
    ensures IsLs1(Or(info2, LS1)) && IsLs0(Or(info2, LS1)) == IsLs0(info2)
    ensures Sdl0(Or(info2, LS1)) == Sdl0(info2) && Sdl1(Or(info2, LS1)) == Sdl1(info2)
  {
    hide Or, Sdl0, Sdl1, IsLs0, IsLs1;
    KeepsSdl0(info2, LS1);
    KeepsSdl1(info2, LS1);
    KeepsLs0(info2, LS1);
    SetLs(info2);
  }

  lemma MapBits(kinds: bv8)
    ensures Kind0(0) == Single && Kind1(0) == Single
    ensures Kind0(Paged(kinds, MAP0_PAGE)) == Page && Kind1(Paged(kinds, MAP0_PAGE)) == Kind1(kinds)
    ensures Kind1(Paged(kinds, MAP1_PAGE)) == Page && Kind0(Paged(kinds, MAP1_PAGE)) == Kind0(kinds)
  {}

  // ---- How a packet fills descriptors ----

  /** A queued packet: its mapped segments, head first, and the offload bits of its descriptors. */
  datatype Sent = Sent(skb: Skb, segs: seq<Seg>, info4: bv32)

  ghost predicate ValidSent(x: Sent) {
    && 1 <= |x.segs| <= 32
    && (forall i :: 0 <= i < |x.segs| ==> ValidLen(x.segs[i].len))
    && (forall i :: 0 <= i < |x.segs| ==> x.segs[i].kind == if i == 0 then Single else Page)
  }

  function Needed(segs: nat): nat { (segs + 1) / 2 }

  function Min(a: nat, b: nat): nat { if a < b then a else b }

  /** Descriptor j of a packet: segments 2j and 2j+1, the mark on the packet's last segment. */
  function PackAt(x: Sent, j: nat): Slot
    requires 2 * j < |x.segs|
  {
    var n := |x.segs|;
    Slot(x.segs[2 * j .. Min(2 * j + 2, n)], 2 * j + 1 == n, 2 * j + 2 == n,
         if n <= 2 * j + 2 then Some(x.skb) else None, x.info4)
  }

  function Pack(x: Sent): (r: seq<Slot>)
    ensures |r| == Needed(|x.segs|)
  {
    seq(Needed(|x.segs|), j requires 0 <= j < Needed(|x.segs|) => PackAt(x, j))
  }

  /** All segments of consecutive slots, in order. */
  function Segments(slots: seq<Slot>): seq<Seg> {
    if slots == [] then [] else Segments(slots[..|slots| - 1]) + slots[|slots| - 1].segs
  }

  /** The packets that completing these slots releases, in order. */
  function Completions(slots: seq<Slot>): seq<Skb> {
    if slots == [] then []
    else
      var s := slots[|slots| - 1];
      Completions(slots[..|slots| - 1]) + (if IsLast(s) && s.skb.Some? then [s.skb.value] else [])
  }

  /** The segments up to the first last-segment mark: one packet as the hardware reads it. */
  function ReadPacket(slots: seq<Slot>): seq<Seg> {
    if slots == [] then [] else if IsLast(slots[0]) then slots[0].segs else slots[0].segs + ReadPacket(slots[1..])
  }

  lemma {:induction false} SegmentsConcat(a: seq<Slot>, b: seq<Slot>)
    ensures Segments(a + b) == Segments(a) + Segments(b)
  {
    if b == [] {
      assert a + b == a;
    } else {
      var n := |b| - 1;
      assert (a + b)[..|a + b| - 1] == a + b[..n];
      SegmentsConcat(a, b[..n]);
    }
  }

  lemma {:induction false} CompletionsConcat(a: seq<Slot>, b: seq<Slot>)
    ensures Completions(a + b) == Completions(a) + Completions(b)
  {
    if b == [] {
      assert a + b == a;
    } else {
      var n := |b| - 1;
      assert (a + b)[..|a + b| - 1] == a + b[..n];
      CompletionsConcat(a, b[..n]);
    }
  }

  lemma {:induction false} PackPrefix(x: Sent, j: nat)
    requires j <= Needed(|x.segs|)
    ensures Segments(Pack(x)[..j]) == x.segs[..Min(2 * j, |x.segs|)]
    ensures Completions(Pack(x)[..j]) == if j == Needed(|x.segs|) && j > 0 then [x.skb] else []
  {
    if j > 0 {
      var slots, n := Pack(x)[..j], |x.segs|;
      PackPrefix(x, j - 1);
      assert slots[..j - 1] == Pack(x)[..j - 1] && slots[j - 1] == PackAt(x, j - 1);
      assert x.segs[..2 * j - 2] + x.segs[2 * j - 2 .. Min(2 * j, n)] == x.segs[..Min(2 * j, n)];
    }
  }

  lemma {:induction false} ReadFrom(x: Sent, j: nat, rest: seq<Slot>)
    requires j < Needed(|x.segs|)
    ensures ReadPacket(Pack(x)[j..] + rest) == x.segs[2 * j..]
    decreases Needed(|x.segs|) - j
  {
    var slots := Pack(x)[j..] + rest;
    assert slots[0] == PackAt(x, j);
    if 2 * j + 2 < |x.segs| {
      ReadFrom(x, j + 1, rest);
      assert slots[1..] == Pack(x)[j + 1..] + rest;
      assert x.segs[2 * j..] == x.segs[2 * j..2 * j + 2] + x.segs[2 * j + 2..];
    }
  }

  /** Packing round trip: whatever follows, reading descriptors from a packet's first one up to the first mark
      gives its head and then its fragments; the one mark and the packet itself sit on the last descriptor. */
  lemma PackRoundTrip(x: Sent, rest: seq<Slot>)
    requires ValidSent(x)
    ensures |Pack(x)| == (|x.segs| + 1) / 2
    ensures ReadPacket(Pack(x) + rest) == x.segs && Segments(Pack(x)) == x.segs
    ensures forall j :: 0 <= j < |Pack(x)| ==>
              (IsLast(Pack(x)[j]) <==> j == |Pack(x)| - 1) && (Pack(x)[j].skb == if j == |Pack(x)| - 1 then Some(x.skb) else None)
    ensures Completions(Pack(x)) == [x.skb]
  {
    ReadFrom(x, 0, rest);
    PackPrefix(x, |Pack(x)|);
    assert Pack(x)[0..] == Pack(x) && Pack(x)[..|Pack(x)|] == Pack(x);
    assert x.segs[0..] == x.segs && x.segs[..|x.segs|] == x.segs;
  }

  // ---- A packet under construction ----

  /** Descriptor j after the packet's first m segments were mapped; `word` is its length word, which is written
      to the descriptor last. */
  ghost predicate Partial(d: Desc, word: bv32, kinds: bv8, x: Sent, j: nat, m: nat)
    requires m <= |x.segs|
  {
    var n, e := |x.segs|, d.(info2 := word);
    && Seg0(e, kinds) == x.segs[Min(2 * j, m) .. Min(2 * j + 1, m)]
    && Seg1(e, kinds) == x.segs[Min(2 * j + 1, m) .. Min(2 * j + 2, m)]
    && (IsLs0(word) <==> m == n && 2 * j + 1 == n)
    && (IsLs1(word) <==> m == n && 2 * j + 2 == n)
    && if 2 * j < m then d.info4 == x.info4 else word == 0 && kinds == 0
  }

  lemma PartialNone(d: Desc, x: Sent, j: nat)
    requires x.segs != []
    ensures Partial(d, 0, 0, x, j, 0)
  {
    hide Sdl0, Sdl1, IsLs0, IsLs1, Kind0, Kind1;
    ZeroBits();
    assert Seg0(d.(info2 := 0), 0) == [] && Seg1(d.(info2 := 0), 0) == [];
  }

  lemma PartialFresh(d: Desc, word: bv32, kinds: bv8, x: Sent, j: nat, m: nat)
    requires m <= |x.segs| && m <= 2 * j && Partial(d, word, kinds, x, j, m)
    ensures word == 0 && kinds == 0
  {
    hide Sdl0, Sdl1, IsLs0, IsLs1, Kind0, Kind1;
  }

  /** A segment goes to slot 0 of a fresh descriptor. */
  lemma PartialSlot0(d: Desc, kinds: bv8, x: Sent, j: nat, m: nat, len: bv32, last: bool)
    requires m < |x.segs| && ValidLen(len) && m == 2 * j && (last <==> m + 1 == |x.segs|)
    requires x.segs[m] == Seg(Kind0(kinds), d.info1, len) && d.info4 == x.info4
    ensures Partial(d, Marked0(PrepSdl0(len), last), kinds, x, j, m + 1)
  {
    hide Sdl0, Sdl1, IsLs0, IsLs1, Kind0, Kind1, Or, PrepSdl0;
    PutSlot0(len);
    MarkLs0(PrepSdl0(len));
    var e := d.(info2 := Marked0(PrepSdl0(len), last));
    assert Seg0(e, kinds) == [x.segs[m]];
    assert Seg1(e, kinds) == [];
    assert x.segs[m..m + 1] == [x.segs[m]];
  }

  function Marked0(word: bv32, last: bool): bv32 { if last then Or(word, LS0) else word }
  function Marked1(word: bv32, last: bool): bv32 { if last then Or(word, LS1) else word }

  /** A segment goes to slot 1 beside the one in slot 0. */
  lemma PartialSlot1(d: Desc, word: bv32, kinds: bv8, x: Sent, j: nat, m: nat, addr: bv32, len: bv32, last: bool)
    requires m < |x.segs| && ValidLen(len) && m == 2 * j + 1 && (last <==> m + 1 == |x.segs|)
    requires x.segs[m] == Seg(Page, addr, len) && Partial(d, word, kinds, x, j, m)
    ensures Partial(d.(info3 := addr, info4 := x.info4), Marked1(Or(word, PrepSdl1(len)), last), Paged(kinds, MAP1_PAGE),
                    x, j, m + 1)
  {
    hide Sdl0, Sdl1, IsLs0, IsLs1, Kind0, Kind1, Paged, Or, PrepSdl1;
    var d0 := d.(info2 := word);
    assert |Seg0(d0, kinds)| == 1 && |Seg1(d0, kinds)| == 0;
    PutSlot1(word, len);
    MarkLs1(Or(word, PrepSdl1(len)));
    MapBits(kinds);
    var e := d.(info2 := Marked1(Or(word, PrepSdl1(len)), last), info3 := addr, info4 := x.info4);
    assert Seg0(e, Paged(kinds, MAP1_PAGE)) == Seg0(d0, kinds);
    assert Seg1(e, Paged(kinds, MAP1_PAGE)) == [x.segs[m]];
    assert x.segs[m..m + 1] == [x.segs[m]];
  }

  /** The other descriptors do not change when a segment is added. */
  lemma PartialOther(d: Desc, word: bv32, kinds: bv8, x: Sent, j: nat, m: nat)
    requires m < |x.segs| && m != 2 * j && m != 2 * j + 1 && Partial(d, word, kinds, x, j, m)
    ensures Partial(d, word, kinds, x, j, m + 1)
  {
    hide Sdl0, Sdl1, IsLs0, IsLs1, Kind0, Kind1;
  }

  /** When all segments are in, writing the length word makes the descriptor what packing says. */
  lemma PartialDone(d: Desc, word: bv32, kinds: bv8, skb: Option<Skb>, x: Sent, j: nat)
    requires 2 * j < |x.segs| && Partial(d, word, kinds, x, j, |x.segs|)
    requires skb == if |x.segs| <= 2 * j + 2 then Some(x.skb) else None
    ensures Decode(d.(info2 := word), kinds, skb) == PackAt(x, j)
  {
    hide Sdl0, Sdl1, IsLs0, IsLs1, Kind0, Kind1;
    var n := |x.segs|;
    assert x.segs[2 * j .. Min(2 * j + 1, n)] + x.segs[Min(2 * j + 1, n) .. Min(2 * j + 2, n)] == x.segs[2 * j .. Min(2 * j + 2, n)];
  }

  lemma PlacedDone(d: Desc, word: bv32, kinds: bv8, skb: Option<Skb>, x: Sent, j: nat)
    requires j < Needed(|x.segs|) && Partial(d, word, kinds, x, j, |x.segs|)
    requires skb == if j == Needed(|x.segs|) - 1 then Some(x.skb) else None
    ensures Decode(d.(info2 := word), kinds, skb) == Pack(x)[j]
  {
    hide Decode, Partial;
    PartialDone(d, word, kinds, skb, x, j);
  }

  /** Writing the length word early, still owned by software, makes exactly the mapped segments readable. */
  lemma PartialSegs(d: Desc, word: bv32, kinds: bv8, skb: Option<Skb>, x: Sent, j: nat, m: nat)
    requires m <= |x.segs| && Partial(d, word, kinds, x, j, m)
    ensures Decode(d.(info2 := Or(word, DONE)), kinds, skb).segs == x.segs[Min(2 * j, m) .. Min(2 * j + 2, m)]
    ensures multiset(x.segs[Min(2 * j, m)..m])
            == multiset(x.segs[Min(2 * j, m) .. Min(2 * j + 2, m)]) + multiset(x.segs[Min(2 * j + 2, m)..m])
  {
    hide Sdl0, Sdl1, IsLs0, IsLs1, Kind0, Kind1, Or;
    DoneIsInvisible(word);
    assert x.segs[Min(2 * j, m) .. Min(2 * j + 1, m)] + x.segs[Min(2 * j + 1, m) .. Min(2 * j + 2, m)]
        == x.segs[Min(2 * j, m) .. Min(2 * j + 2, m)];
    assert x.segs[Min(2 * j, m) .. Min(2 * j + 2, m)] + x.segs[Min(2 * j + 2, m)..m] == x.segs[Min(2 * j, m)..m];
  }
}
