/** struct ralink_fe_tx_ring updated in place: every operation performs the step of the log it stands for. */
module TxRings {
  import opened Wire
  import opened TxDesc
  import opened TxFifo

  class TxRing {
    const desc: array<Desc>
    const skb: array<Option<Skb>>
    const kinds: array<bv8>
    var cpuIdx: nat
    var cleanIdx: nat
    var stopped: bool
    var ringFull: nat
    var packets: nat
    var bytes: nat
    var sentBytes: nat
    var dropped: nat
    var errors: nat
    ghost var sent: seq<Sent>
    ghost var cleaned: nat
    ghost var live: multiset<Seg>
    ghost var completed: seq<Skb>
    ghost var woken: bool

    ghost function View(): Tx
      reads this
    {
      Tx(sent, cleaned, live, completed, stopped, woken, sentBytes, packets, bytes, ringFull)
    }

    ghost function Repr(): set<object> { {this, desc, skb, kinds} }

    ghost predicate Shape() {
      && desc.Length == RING && skb.Length == RING && kinds.Length == RING
      && (desc as object) != kinds && (desc as object) != skb && (skb as object) != kinds
    }

    ghost function At(i: nat): Slot
      requires Shape() && i < RING
      reads desc, skb, kinds
    {
      Decode(desc[i], kinds[i], skb[i])
    }

    /** The slots between the two indices decode to the part of the log that is in flight. */
    ghost predicate Holds(log: seq<Slot>)
      requires Shape()
      reads this`cleaned, desc, skb, kinds
    {
      forall k :: cleaned <= k < |log| ==> At(Pos(k)) == log[k]
    }

    /** The slots from running number n on are free. */
    ghost predicate FreeFrom(n: nat)
      requires Shape()
      reads this`cleaned, skb, kinds
    {
      forall k :: n <= k < cleaned + RING ==> skb[Pos(k)] == None && kinds[Pos(k)] == 0
    }

    ghost predicate Valid()
      reads this, desc, skb, kinds
    {
      && Shape() && Inv(View())
      && cpuIdx == Pos(|Log(sent)|) && cleanIdx == Pos(cleaned)
      && Holds(Log(sent)) && FreeFrom(|Log(sent)|)
    }

    /** Every descriptor owned by software and empty. */
    constructor ()
      ensures Valid() && View() == EMPTY && fresh(desc) && fresh(skb) && fresh(kinds)
    {
      desc := new Desc[RING](_ => Desc(0, DONE, 0, 0));
      skb := new Option<Skb>[RING](_ => None);
      kinds := new bv8[RING](_ => 0);
      cpuIdx, cleanIdx, stopped, ringFull, packets, bytes, sentBytes := 0, 0, false, 0, 0, 0, 0;
      dropped, errors := 0, 0;
      sent, cleaned, live, completed, woken := [], 0, multiset{}, [], true;
    }

    /** The engine hands a descriptor back: nothing of what the ring means changes. */
    method HwDone(i: nat)
      requires Valid() && i < RING
      modifies desc
      ensures Valid()
    {
      hide Decode, Or, Inv, Log;
      var d := desc[i];
      DecodeIgnoresDone(d, kinds[i], skb[i]);
      desc[i] := d.(info2 := Or(d.info2, DONE));
      assert At(i) == old(At(i));
    }

    // ---- Mappings ----

    ghost method Unmap(seg: Seg)
      requires seg in live
      modifies this`live
      ensures live == old(live) - multiset{seg}
    {
      live := live - multiset{seg};
    }

    /** A segment with a length is mapped, as a page or singly, and is unmapped the same way. */
    method UnmapSlot(kind: Kind, addr: bv32, len: bv32)
      requires multiset(SegIn(kind, addr, len)) <= live
      modifies this`live
      ensures live == old(live) - multiset(SegIn(kind, addr, len))
    {
      if len != 0 { Unmap(Seg(kind, addr, len)); }
    }

    /** Unmap what a descriptor records, each segment once and as it was mapped. */
    method UnmapDesc(i: nat)
      requires Shape() && i < RING && multiset(At(i).segs) <= live
      modifies this`live, kinds
      ensures live == old(live) - multiset(old(At(i).segs))
      ensures kinds[i] == 0 && forall j :: 0 <= j < RING && j != i ==> kinds[j] == old(kinds[j])
    {
      hide Sdl0, Sdl1, Kind0, Kind1, Decode, SegIn;
      var d, m := desc[i], kinds[i];
      SegsOf(d, m, skb[i]);
      UnmapSlot(Kind0(m), d.info1, Sdl0(d.info2));
      UnmapSlot(Kind1(m), d.info3, Sdl1(d.info2));
      kinds[i] := 0;
    }

    // ---- Linear packets ----

    /** The packet's slots are filled, its mappings are in force, and the descriptor beyond is free: it is
        queued by moving the software index and by the accounting. */
    method Enqueue(needed: nat, len: nat, ghost v0: Tx, ghost x: Sent)
      requires needed == |Pack(x)| && len == x.skb.len && Shape()
      requires View() == v0.(live := v0.live + multiset(x.segs))
      requires Inv(Queue(v0, x)) && |Log(sent + [x])| == |Log(sent)| + needed
      requires cpuIdx == Pos(|Log(sent)|) && cleanIdx == Pos(cleaned)
      requires Holds(Log(sent + [x])) && FreeFrom(|Log(sent + [x])|)
      modifies this`cpuIdx, this`sentBytes, this`sent, this`woken
      ensures Valid() && View() == Queue(v0, x) && cpuIdx == (old(cpuIdx) + needed) % RING
    {
      hide Inv, Log, Pack, Decode, Pos, Holds, FreeFrom;
      PosAdd(|Log(sent)|, needed);
      cpuIdx := (cpuIdx + needed) % RING;
      sentBytes := sentBytes + len;
      sent, woken := sent + [x], false;
      assert View() == Queue(v0, x);
    }

    /** Fill the one descriptor of a linear packet. */
    method FillLinear(packet: Skb, headLen: bv32, info4: bv32, dma: bv32)
      requires Valid() && ValidLen(headLen) && 0 <= InFlight(View()) < RING - STOP_RESERVE
      modifies desc, skb, kinds
      ensures var x := LinearSent(packet, headLen, info4, Some(dma));
              Holds(Log(sent + [x])) && FreeFrom(|Log(sent + [x])|)
    {
      hide Inv, Log, Pack, Decode, ValidLen, PrepSdl0, Or, Pos;
      ghost var x := LinearSent(packet, headLen, info4, Some(dma));
      ghost var log := Log(sent);
      kinds[cpuIdx] := 0;
      skb[cpuIdx] := Some(packet);
      desc[cpuIdx] := Desc(dma, Or(PrepSdl0(headLen), LS0), 0, info4);
      SentGrows(View(), x);
      LinearDecodes(packet, headLen, info4, Some(dma));
      forall k | cleaned <= k < cleaned + RING && k != |log| ensures Pos(k) != Pos(|log|) {
        PosApart(cleaned, k, |log|);
      }
    }

    /** Refuse a packet and stop the queue unless its descriptors leave the reserve untouched. */
    method Admit(needed: nat) returns (ok: bool)
      requires Valid() && needed <= WAKE_THRESH
      modifies this`stopped, this`ringFull
      ensures Valid() && (ok <==> InFlight(old(View())) + needed <= RING - STOP_RESERVE)
      ensures View() == if ok then old(View()) else old(View()).(stopped := true, ringFull := old(ringFull) + 1)
    {
      hide Log, Segments, Completions, TotalLen, Skbs, Decode, Pos, Holds, FreeFrom, ValidSent;
      RoomOf(View());
      ok := Avail(cleanIdx, cpuIdx) >= needed;
      if !ok { ringFull, stopped := ringFull + 1, true; }
    }

    method CountDrop(error: bool)
      requires Valid()
      modifies this`dropped, this`errors
      ensures Valid() && View() == old(View())
      ensures dropped == old(dropped) + 1 && errors == old(errors) + (if error then 1 else 0)
    {
      hide Log, Inv, Holds, FreeFrom;
      dropped := dropped + 1;
      if error { errors := errors + 1; }
    }

    method SendLinear(packet: Skb, headLen: bv32, info4: bv32, dma: bv32)
      requires Valid() && ValidLen(headLen) && InFlight(View()) < RING - STOP_RESERVE
      modifies this`cpuIdx, this`sentBytes, this`sent, this`live, this`woken, desc, skb, kinds
      ensures Valid() && View() == Queue(old(View()), LinearSent(packet, headLen, info4, Some(dma)))
      ensures cpuIdx == (old(cpuIdx) + 1) % RING
    {
      hide Valid, Inv, Log, Pack, ValidLen, ValidSent, Holds, FreeFrom, Pos;
      ghost var x := LinearSent(packet, headLen, info4, Some(dma));
      ghost var v0 := View();
      InvOfValid();
      LinearIsValid(packet, headLen, info4, Some(dma));
      SentGrows(v0, x);
      QueueKeepsInv(v0, x);
      FillLinear(packet, headLen, info4, dma);
      live := live + multiset(x.segs);
      Enqueue(1, packet.len, v0, x);
    }

    /** One descriptor, one segment. `padOk` and `dma` are what padding and mapping answer; lengths are those
        of the padded packet. */
    method XmitLinear(packet: Skb, headLen: bv32, info4: bv32, padOk: bool, dma: Option<bv32>) returns (v: Verdict)
      requires Valid() && ValidLen(headLen)
      modifies this`stopped, this`ringFull, this`dropped, this`errors, this`cpuIdx, this`sentBytes
      modifies this`sent, this`live, this`woken, desc, skb, kinds
      ensures Valid()
      ensures (View(), v) == Xmit(old(View()), LinearSent(packet, headLen, info4, dma), padOk && dma.Some?)
      ensures v == Busy <==> InFlight(old(View())) + 1 > 112
      ensures v == Queued <==> InFlight(old(View())) + 1 <= 112 && padOk && dma.Some?
      ensures sent == if v == Queued then old(sent) + [Sent(packet, [Seg(Single, dma.value, headLen)], info4)] else old(sent)
      ensures sentBytes == old(sentBytes) + (if v == Queued then packet.len else 0)
      ensures cpuIdx == (old(cpuIdx) + (if v == Queued then 1 else 0)) % RING
      ensures stopped == (old(stopped) || v == Busy) && ringFull == old(ringFull) + (if v == Busy then 1 else 0)
      ensures dropped == old(dropped) + (if v == Dropped then 1 else 0)
      ensures errors == old(errors) + (if v == Dropped && padOk then 1 else 0)
    {
      hide Valid, Inv, Log, ValidLen, Avail;
      ghost var x := LinearSent(packet, headLen, info4, dma);
      InvOfValid();
      SendMeans(View(), x, padOk && dma.Some?);
      var ok := Admit(1);
      if !ok { return Busy; }
      if !padOk || dma.None? {
        CountDrop(padOk);
        return Dropped;
      }
      SendLinear(packet, headLen, info4, dma.value);
      return Queued;
    }

    // ---- Scatter-gather packets ----

    /** Descriptor j of the packet under construction, see TxDesc.Partial. */
    ghost predicate Filled(info2: seq<bv32>, x: Sent, j: nat, m: nat)
      requires Shape() && m <= |x.segs| && j < |info2|
      reads this`sent, desc, kinds
    {
      var i := Pos(|Log(sent)| + j);
      Partial(desc[i], info2[j], kinds[i], x, j, m)
    }

    /** The packet's first m segments are in place beyond the software index; nothing in flight has changed. */
    ghost predicate Packing(info2: seq<bv32>, x: Sent, m: nat)
      requires m <= |x.segs|
      reads this`sent, this`cleaned, this`cpuIdx, desc, skb, kinds
    {
      var n := |Log(sent)|;
      && Shape() && cpuIdx == Pos(n) && cleaned <= n
      && |info2| == Needed(|x.segs|) && n + |info2| <= cleaned + RING - STOP_RESERVE
      && Holds(Log(sent))
      && (forall k :: n <= k < cleaned + RING ==> skb[Pos(k)] == None)
      && (forall k :: n + |info2| <= k < cleaned + RING ==> kinds[Pos(k)] == 0)
      && (forall j :: 0 <= j < |info2| ==> Filled(info2, x, j, m))
    }

    /** Within the window that starts at the clean index, only number k is at its place. */
    lemma OnlyAt(k: nat)
      requires cleaned <= k < cleaned + RING
      ensures forall i :: cleaned <= i < cleaned + RING && i != k ==> Pos(i) != Pos(k)
    {
      forall i | cleaned <= i < cleaned + RING && i != k ensures Pos(i) != Pos(k) { PosApart(cleaned, i, k); }
    }

    /** Descriptor `off` takes one more segment, and the others stay as they are. */
    method Put(info2: seq<bv32>, off: nat, d: Desc, word: bv32, kind: bv8, ghost x: Sent, ghost m: nat, ghost m': nat)
      returns (r: seq<bv32>)
      requires m' == m + 1 <= |x.segs| && 2 * off <= m <= 2 * off + 1 && off < |info2|
      requires Packing(info2, x, m) && Partial(d, word, kind, x, off, m')
      modifies desc, kinds
      ensures Packing(r, x, m')
    {
      hide Log, Decode, Pos, Partial, Needed;
      ghost var n := |Log(sent)|;
      PosAdd(n, off);
      OnlyAt(n + off);
      var i := (cpuIdx + off) % RING;
      desc[i] := d;
      kinds[i] := kind;
      r := info2[off := word];
      forall j | 0 <= j < |r| ensures Filled(r, x, j, m') {
        if j != off {
          assert old(Filled(info2, x, j, m));
          PartialOther(desc[Pos(n + j)], info2[j], kinds[Pos(n + j)], x, j, m);
        }
      }
    }

    method PutHead(info2: seq<bv32>, addr: bv32, len: bv32, info4: bv32, ghost x: Sent) returns (r: seq<bv32>)
      requires |x.segs| >= 2 && Packing(info2, x, 0)
      requires x.segs[0] == Seg(Single, addr, len) && ValidLen(len) && x.info4 == info4
      modifies desc, kinds
      ensures Packing(r, x, 1)
    {
      hide Log, Decode, PrepSdl0, Partial, ValidLen, Kind0, Kind1;
      var d := desc[cpuIdx].(info1 := addr, info3 := 0, info4 := info4);
      assert Filled(info2, x, 0, 0);
      PartialFresh(desc[cpuIdx], info2[0], kinds[cpuIdx], x, 0, 0);
      MapBits(0);
      PartialSlot0(d, 0, x, 0, 0, len, false);
      r := Put(info2, 0, d, PrepSdl0(len), kinds[cpuIdx], x, 0, 1);
    }

    /** Segment m goes to slot 0 or 1 of descriptor m / 2. */
    method PutFrag(info2: seq<bv32>, m: nat, last: bool, addr: bv32, len: bv32, info4: bv32, ghost x: Sent)
      returns (r: seq<bv32>)
      requires 1 <= m < |x.segs| && Packing(info2, x, m)
      requires x.segs[m] == Seg(Page, addr, len) && ValidLen(len) && x.info4 == info4 && (last <==> m + 1 == |x.segs|)
      modifies desc, kinds
      ensures Packing(r, x, m + 1)
    {
      hide Log, Decode, PrepSdl0, PrepSdl1, Pos, Partial, ValidLen, Or, Paged, Marked0, Marked1, Kind0, Kind1, Packing;
      var off := m / 2;
      var i := (cpuIdx + off) % RING;
      PackingAt(info2, x, off, m);
      if m % 2 == 1 {
        PartialSlot1(desc[i], info2[off], kinds[i], x, off, m, addr, len, last);
        r := Put(info2, off, desc[i].(info3 := addr, info4 := info4), Marked1(Or(info2[off], PrepSdl1(len)), last),
                 Paged(kinds[i], MAP1_PAGE), x, m, m + 1);
      } else {
        PartialFresh(desc[i], info2[off], kinds[i], x, off, m);
        MapBits(0);
        OrZero(PrepSdl0(len));
        var d := desc[i].(info1 := addr, info4 := info4);
        PartialSlot0(d, Paged(0, MAP0_PAGE), x, off, m, len, last);
        r := Put(info2, off, d, Marked0(Or(info2[off], PrepSdl0(len)), last), Paged(kinds[i], MAP0_PAGE), x, m, m + 1);
      }
    }

    lemma PackingAt(info2: seq<bv32>, x: Sent, off: nat, m: nat)
      requires m < |x.segs| && off == m / 2 && Packing(info2, x, m)
      ensures Shape() && off < |info2|
      ensures var i := (cpuIdx + off) % RING; Partial(desc[i], info2[off], kinds[i], x, off, m)
    {
      hide Partial, Log, Pos;
      PosAdd(|Log(sent)|, off);
      assert Filled(info2, x, off, m);
    }

    /** The packet's own slots are cleared before anything is mapped; they were free anyway. */
    method ClearSg(needed: nat, ghost x: Sent) returns (info2: seq<bv32>)
      requires Valid() && x.segs != [] && needed == Needed(|x.segs|)
      requires 0 <= InFlight(View()) <= RING - STOP_RESERVE - needed
      modifies skb, kinds
      ensures Valid() && Packing(info2, x, 0)
    {
      hide Log, Decode, Pos, Partial, Needed, Inv;
      ghost var n := |Log(sent)|;
      info2 := [];
      for i := 0 to needed
        invariant |info2| == i && forall j :: 0 <= j < i ==> info2[j] == 0
        invariant forall k :: 0 <= k < RING ==> skb[k] == old(skb[k]) && kinds[k] == old(kinds[k])
      {
        PosAdd(n, i);
        assert skb[Pos(n + i)] == None && kinds[Pos(n + i)] == 0;
        var didx := (cpuIdx + i) % RING;
        kinds[didx] := 0;
        skb[didx] := None;
        info2 := info2 + [0];
      }
      assert Holds(Log(sent)) && FreeFrom(n);
      forall j | 0 <= j < needed ensures Filled(info2, x, j, 0) {
        assert kinds[Pos(n + j)] == 0;
        PartialNone(desc[Pos(n + j)], x, j);
      }
    }

    // ---- Publishing a packet ----

    /** The packet sits on its last descriptor and the first i length words are written. */
    ghost predicate Committing(info2: seq<bv32>, x: Sent, i: nat)
      reads this`sent, this`cleaned, this`cpuIdx, desc, skb, kinds
    {
      var n := |Log(sent)|;
      && Shape() && cpuIdx == Pos(n) && cleaned <= n && x.segs != []
      && |info2| == |Pack(x)| && n + |info2| <= cleaned + RING - STOP_RESERVE
      && Holds(Log(sent)) && FreeFrom(n + |info2|)
      && (forall j :: 0 <= j < i && j < |info2| ==> At(Pos(n + j)) == Pack(x)[j])
      && (forall j :: i <= j < |info2| ==> Filled(info2, x, j, |x.segs|) && Placed(x, j))
    }

    ghost predicate Placed(x: Sent, j: nat)
      requires Shape()
      reads this`sent, skb
    {
      skb[Pos(|Log(sent)| + j)] == if j == Needed(|x.segs|) - 1 then Some(x.skb) else None
    }

    method Place(packet: Skb, needed: nat, info2: seq<bv32>, ghost x: Sent)
      requires x.segs != [] && Packing(info2, x, |x.segs|) && needed == |info2| && packet == x.skb
      modifies skb
      ensures Committing(info2, x, 0)
    {
      hide Log, Decode, Pos, Partial, Inv;
      ghost var n := |Log(sent)|;
      PosAdd(n, needed - 1);
      OnlyAt(n + needed - 1);
      skb[(cpuIdx + (needed - 1)) % RING] := Some(packet);
      forall j | 0 <= j < |info2| ensures Filled(info2, x, j, |x.segs|) && Placed(x, j) {
        assert old(Filled(info2, x, j, |x.segs|));
      }
    }

    method WriteLengths(i: nat, info2: seq<bv32>, ghost x: Sent, ghost i': nat)
      requires i' == i + 1 && i < |info2| && Committing(info2, x, i)
      modifies desc
      ensures Committing(info2, x, i')
    {
      hide Log, Decode, Pos, Partial, Pack, Needed;
      ghost var n := |Log(sent)|;
      PosAdd(n, i);
      OnlyAt(n + i);
      var didx := (cpuIdx + i) % RING;
      assert Filled(info2, x, i, |x.segs|) && Placed(x, i);
      PlacedDone(desc[didx], info2[i], kinds[didx], skb[didx], x, i);
      desc[didx] := desc[didx].(info2 := info2[i]);
      forall j | i' <= j < |info2| ensures Filled(info2, x, j, |x.segs|) && Placed(x, j) {
        assert old(Filled(info2, x, j, |x.segs|)) && old(Placed(x, j));
      }
    }

    /** The packet goes onto its last descriptor, then the length words are written, then it is queued. */
    method CommitSg(packet: Skb, needed: nat, info2: seq<bv32>, ghost x: Sent)
      requires x.segs != [] && Packing(info2, x, |x.segs|) && needed == |info2| && packet == x.skb
      modifies desc, skb
      ensures Holds(Log(sent + [x])) && FreeFrom(|Log(sent + [x])|)
    {
      hide Log, Pos, Packing, Committing, Holds, FreeFrom;
      Place(packet, needed, info2, x);
      for i := 0 to needed
        invariant Committing(info2, x, i)
      {
        WriteLengths(i, info2, x, i + 1);
      }
      Committed(info2, x);
    }

    lemma Committed(info2: seq<bv32>, x: Sent)
      requires Committing(info2, x, |info2|)
      ensures Shape() && Holds(Log(sent + [x])) && FreeFrom(|Log(sent + [x])|)
    {
      hide Log, Decode, Pos, Pack;
      SentGrows(View(), x);
    }

    // ---- Taking a half-built packet back ----

    /** The first i descriptors of a packet with m mapped segments were taken back. */
    ghost predicate Unwinding(info2: seq<bv32>, x: Sent, m: nat, i: nat)
      requires m <= |x.segs|
      reads this`sent, this`cleaned, this`cpuIdx, desc, skb, kinds
    {
      var n := |Log(sent)|;
      && Shape() && cpuIdx == Pos(n) && cleaned <= n
      && |info2| == Needed(|x.segs|) && n + |info2| <= cleaned + RING - STOP_RESERVE
      && Holds(Log(sent))
      && (forall k :: n <= k < cleaned + RING ==> skb[Pos(k)] == None)
      && (forall k :: n <= k < cleaned + RING && !(n + i <= k < n + |info2|) ==> kinds[Pos(k)] == 0)
      && (forall j :: i <= j < |info2| ==> Filled(info2, x, j, m))
    }

    /** One descriptor: put the lengths of what was mapped back, unmap it, and leave the descriptor empty. */
    method TakeBack(i: nat, word: bv32)
      requires Shape() && i < RING
      requires multiset(Decode(desc[i].(info2 := Or(word, DONE)), kinds[i], skb[i]).segs) <= live
      modifies this`live, desc, skb, kinds
      ensures live == old(live) - multiset(old(Decode(desc[i].(info2 := Or(word, DONE)), kinds[i], skb[i]).segs))
      ensures skb[i] == None && kinds[i] == 0
      ensures forall k :: 0 <= k < RING && k != i ==> desc[k] == old(desc[k]) && skb[k] == old(skb[k]) && kinds[k] == old(kinds[k])
    {
      hide Decode, Or;
      desc[i] := desc[i].(info2 := Or(word, DONE));
      UnmapDesc(i);
      skb[i] := None;
      desc[i] := Desc(0, DONE, 0, 0);
    }

    method TakeBackNext(i: nat, didx: nat, info2: seq<bv32>, ghost x: Sent, ghost m: nat, ghost i': nat)
      requires m <= |x.segs| && i' == i + 1 && i < |info2| && Unwinding(info2, x, m, i) && didx == Pos(|Log(sent)| + i)
      requires multiset(Decode(desc[didx].(info2 := Or(info2[i], DONE)), kinds[didx], skb[didx]).segs) <= live
      modifies this`live, desc, skb, kinds
      ensures Unwinding(info2, x, m, i')
      ensures live == old(live)
                      - multiset(old(Decode(desc[didx].(info2 := Or(info2[i], DONE)), kinds[didx], skb[didx]).segs))
    {
      hide Log, Decode, Pos, Partial, Or, Needed;
      OnlyAt(|Log(sent)| + i);
      TakeBack(didx, info2[i]);
      forall j | i' <= j < |info2| ensures Filled(info2, x, j, m) {
        assert old(Filled(info2, x, j, m));
      }
    }

    method UnwindOne(i: nat, info2: seq<bv32>, ghost x: Sent, ghost m: nat, ghost i': nat, ghost base: multiset<Seg>)
      requires m <= |x.segs| && i' == i + 1 && i < |info2| && Unwinding(info2, x, m, i)
      requires live == base + multiset(x.segs[Min(2 * i, m)..m])
      modifies this`live, desc, skb, kinds
      ensures Unwinding(info2, x, m, i') && live == base + multiset(x.segs[Min(2 * i', m)..m])
    {
      hide Log, Decode, Pos, Partial, Or, Unwinding;
      UnwindingAt(info2, x, m, i);
      var didx := (cpuIdx + i) % RING;
      PartialSegs(desc[didx], info2[i], kinds[didx], skb[didx], x, i, m);
      TakeBackNext(i, didx, info2, x, m, i');
    }

    lemma UnwindingAt(info2: seq<bv32>, x: Sent, m: nat, i: nat)
      requires m <= |x.segs| && i < |info2| && Unwinding(info2, x, m, i)
      ensures Shape() && (cpuIdx + i) % RING == Pos(|Log(sent)| + i)
      ensures var at := Pos(|Log(sent)| + i); Partial(desc[at], info2[i], kinds[at], x, i, m)
    {
      hide Partial, Log, Pos;
      PosAdd(|Log(sent)|, i);
      assert Filled(info2, x, i, m);
    }

    /** A failed mapping takes back exactly the m segments mapped so far: indices, descriptors in flight and
        mappings are as before the packet. */
    method UnwindSg(needed: nat, info2: seq<bv32>, ghost v0: Tx, ghost x: Sent, ghost m: nat)
      requires m <= |x.segs| && Packing(info2, x, m) && needed == |info2| && cleanIdx == Pos(cleaned)
      requires Inv(v0) && View() == v0.(live := v0.live + multiset(x.segs[..m]))
      modifies this`live, desc, skb, kinds
      ensures Valid() && View() == v0
    {
      hide Log, Pos, Filled, Inv, Holds, FreeFrom, Unwinding;
      PackingUnwinds(info2, x, m);
      assert x.segs[0..m] == x.segs[..m];
      for i := 0 to needed
        invariant Unwinding(info2, x, m, i) && live == v0.live + multiset(x.segs[Min(2 * i, m)..m])
      {
        UnwindOne(i, info2, x, m, i + 1, v0.live);
      }
      UnwoundIsFree(info2, x, m);
      assert x.segs[Min(2 * needed, m)..m] == [];
      assert live == v0.live;
    }

    lemma PackingUnwinds(info2: seq<bv32>, x: Sent, m: nat)
      requires m <= |x.segs| && Packing(info2, x, m)
      ensures Unwinding(info2, x, m, 0) && |info2| == Needed(|x.segs|)
    {
      hide Log, Pos, Filled, Holds;
      forall k | |Log(sent)| + |info2| <= k < cleaned + RING ensures kinds[Pos(k)] == 0 {}
    }

    lemma UnwoundIsFree(info2: seq<bv32>, x: Sent, m: nat)
      requires m <= |x.segs| && Unwinding(info2, x, m, |info2|)
      ensures Shape() && cpuIdx == Pos(|Log(sent)|) && Holds(Log(sent)) && FreeFrom(|Log(sent)|)
    {
      hide Log, Pos, Filled, Holds;
    }

    /** Map the fragments one after another behind the head; `m` segments are mapped when one fails. */
    method MapFrags(info2: seq<bv32>, lens: seq<bv32>, info4: bv32, dmas: seq<Option<bv32>>,
                    ghost base: multiset<Seg>, ghost x: Sent)
      returns (m: nat, r: seq<bv32>)
      requires 2 <= |lens| == |dmas| && x == SgSent(x.skb, lens, info4, dmas) && ValidSent(x)
      requires Packing(info2, x, 1) && dmas[0].Some? && live == base + multiset(x.segs[..1])
      modifies this`live, desc, kinds
      ensures m <= |lens| && Packing(r, x, m) && live == base + multiset(x.segs[..m])
      ensures (m == |lens|) == AllMapped(dmas)
    {
      hide Log, Pos, Packing, ValidLen, Needed, SgSent, ValidSent;
      SgLength(x.skb, lens, info4, dmas);
      m, r := 1, info2;
      while m < |lens|
        invariant 1 <= m <= |lens| && Packing(r, x, m) && live == base + multiset(x.segs[..m])
        invariant forall k :: 0 <= k < m ==> dmas[k].Some?
      {
        if dmas[m].None? { return; }
        SgSegment(x.skb, lens, info4, dmas, m);
        live := live + multiset{x.segs[m]};
        r := PutFrag(r, m, m == |lens| - 1, dmas[m].value, lens[m], info4, x);
        m := m + 1;
      }
    }

    /** Map the head and then the fragments, filling descriptors; `ok` unless a mapping failed. */
    method FillSg(needed: nat, lens: seq<bv32>, info4: bv32, dmas: seq<Option<bv32>>, ghost x: Sent)
      returns (ok: bool, info2: seq<bv32>)
      requires Valid() && needed == Needed(|lens|) && 0 <= InFlight(View()) <= RING - STOP_RESERVE - needed
      requires 2 <= |lens| == |dmas| && x == SgSent(x.skb, lens, info4, dmas) && ValidSent(x)
      modifies this`live, desc, skb, kinds
      ensures ok <==> AllMapped(dmas)
      ensures !ok ==> Valid() && View() == old(View())
      ensures ok ==> Packing(info2, x, |x.segs|) && View() == old(View()).(live := old(live) + multiset(x.segs))
    {
      hide Log, Pos, Inv, Packing, Valid, ValidLen, Needed;
      ghost var v0 := View();
      InvOfValid();
      info2 := ClearSg(needed, x);
      if dmas[0].None? { return false, info2; }
      live := live + multiset{x.segs[0]};
      assert x.segs[..1] == [x.segs[0]];
      info2 := PutHead(info2, dmas[0].value, lens[0], info4, x);
      var m: nat;
      m, info2 := MapFrags(info2, lens, info4, dmas, v0.live, x);
      ok := m == |lens|;
      if ok {
        assert x.segs[..m] == x.segs;
      } else {
        PackingLength(info2, x, m);
        UnwindSg(needed, info2, v0, x, m);
      }
    }

    /** The packet's head and fragments, two to a descriptor. `lens` are their lengths, `dmas` what mapping
        each of them answers. */
    method XmitSg(packet: Skb, lens: seq<bv32>, info4: bv32, padOk: bool, dmas: seq<Option<bv32>>) returns (v: Verdict)
      requires Valid() && 2 <= |lens| <= 32 && |dmas| == |lens|
      requires forall i :: 0 <= i < |lens| ==> ValidLen(lens[i])
      modifies this`stopped, this`ringFull, this`dropped, this`errors, this`cpuIdx, this`sentBytes
      modifies this`sent, this`live, this`woken, desc, skb, kinds
      ensures Valid()
      ensures (View(), v) == Xmit(old(View()), SgSent(packet, lens, info4, dmas), padOk && AllMapped(dmas))
      ensures v == Busy <==> InFlight(old(View())) + (|lens| + 1) / 2 > 112
      ensures v == Queued <==> InFlight(old(View())) + (|lens| + 1) / 2 <= 112 && padOk && AllMapped(dmas)
      ensures if v == Queued then IsSg(old(sent), sent, packet, lens, info4, dmas) else sent == old(sent)
      ensures sentBytes == old(sentBytes) + (if v == Queued then packet.len else 0)
      ensures cpuIdx == (old(cpuIdx) + (if v == Queued then (|lens| + 1) / 2 else 0)) % RING
      ensures stopped == (old(stopped) || v == Busy) && ringFull == old(ringFull) + (if v == Busy then 1 else 0)
      ensures dropped == old(dropped) + (if v == Dropped then 1 else 0)
      ensures errors == old(errors) + (if v == Dropped && padOk then 1 else 0)
    {
      hide Valid, Inv, Log, Xmit, AllMapped, ValidSent, ValidLen, IsSg, SgSent;
      ghost var x := SgSent(packet, lens, info4, dmas);
      InvOfValid();
      SgLength(packet, lens, info4, dmas);
      SendMeans(View(), x, padOk && AllMapped(dmas));
      v := TransmitSg(packet, lens, info4, padOk, dmas);
      if v == Queued { SgIsSg(old(sent), packet, lens, info4, dmas); }
    }

    method TransmitSg(packet: Skb, lens: seq<bv32>, info4: bv32, padOk: bool, dmas: seq<Option<bv32>>) returns (v: Verdict)
      requires Valid() && 2 <= |lens| <= 32 && |dmas| == |lens|
      requires forall i :: 0 <= i < |lens| ==> ValidLen(lens[i])
      modifies this`stopped, this`ringFull, this`dropped, this`errors, this`cpuIdx, this`sentBytes
      modifies this`sent, this`live, this`woken, desc, skb, kinds
      ensures Valid()
      ensures (View(), v) == Xmit(old(View()), SgSent(packet, lens, info4, dmas), padOk && AllMapped(dmas))
      ensures cpuIdx == if v == Queued then (old(cpuIdx) + (|lens| + 1) / 2) % RING else old(cpuIdx)
      ensures dropped == old(dropped) + (if v == Dropped then 1 else 0)
      ensures errors == old(errors) + (if v == Dropped && padOk then 1 else 0)
    {
      hide Valid, Inv, Log, ValidLen, Queue, Avail, AllMapped, ValidSent, Packing;
      ghost var x := SgSent(packet, lens, info4, dmas);
      InvOfValid();
      SgIsValid(packet, lens, info4, dmas);
      QueuedFits(View(), x, padOk && AllMapped(dmas));
      var needed := (|lens| + 1) / 2;
      var ok := Admit(needed);
      if !ok { return Busy; }
      if !padOk {
        CountDrop(false);
        return Dropped;
      }
      ok := SendSg(packet, needed, lens, info4, dmas);
      if !ok {
        CountDrop(true);
        return Dropped;
      }
      return Queued;
    }

    method SendSg(packet: Skb, needed: nat, lens: seq<bv32>, info4: bv32, dmas: seq<Option<bv32>>) returns (ok: bool)
      requires Valid() && needed == Needed(|lens|) && InFlight(View()) <= RING - STOP_RESERVE - needed
      requires 2 <= |lens| == |dmas| && ValidSent(SgSent(packet, lens, info4, dmas))
      modifies this`cpuIdx, this`sentBytes, this`sent, this`live, this`woken, desc, skb, kinds
      ensures Valid() && (ok <==> AllMapped(dmas))
      ensures View() == if ok then Queue(old(View()), SgSent(packet, lens, info4, dmas)) else old(View())
      ensures cpuIdx == if ok then (old(cpuIdx) + needed) % RING else old(cpuIdx)
    {
      hide Valid, Inv, Log, Pack, ValidLen, ValidSent, Holds, FreeFrom, Pos, Packing, AllMapped;
      ghost var x := SgSent(packet, lens, info4, dmas);
      ghost var v0 := View();
      InvOfValid();
      var info2: seq<bv32>;
      ok, info2 := FillSg(needed, lens, info4, dmas, x);
      if !ok { return; }
      SentGrows(v0, x);
      QueueKeepsInv(v0, x);
      PackingLength(info2, x, |x.segs|);
      CommitSg(packet, needed, info2, x);
      Enqueue(needed, packet.len, v0, x);
    }

    lemma PackingLength(info2: seq<bv32>, x: Sent, m: nat)
      requires m <= |x.segs| && Packing(info2, x, m)
      ensures |info2| == Needed(|x.segs|)
    {}

    // ---- Cleaning ----

    /** A descriptor in flight: what it says is what was queued, and its mappings are in force. */
    lemma ReadAtClean(log: seq<Slot>)
      requires Shape() && log == Log(sent) && cleaned < |log| && Holds(log) && live == multiset(Segments(log[cleaned..]))
      ensures var i := Pos(cleaned);
              && skb[i] == log[cleaned].skb
              && IsLast(log[cleaned]) == (IsLs0(desc[i].info2) || IsLs1(desc[i].info2))
              && At(i) == log[cleaned] && multiset(At(i).segs) <= live
              && live - multiset(At(i).segs) == multiset(Segments(log[cleaned + 1..]))
    {
      hide Log, Pos, Sdl0, Sdl1, Seg0, Seg1, IsLs0, IsLs1, Segments;
      FirstSegments(log, cleaned);
      assert At(Pos(cleaned)) == log[cleaned];
    }

    /** One descriptor: unmap it, and release the packet if this is its last one. */
    method CleanOne(clean: nat, ghost log: seq<Slot>) returns (done: bool, len: nat)
      requires Shape() && log == Log(sent) && cleaned < |log| <= cleaned + RING - STOP_RESERVE && clean == Pos(cleaned)
      requires Holds(log) && FreeFrom(|log|) && live == multiset(Segments(log[cleaned..]))
      requires IsLast(log[cleaned]) <==> log[cleaned].skb.Some?
      modifies this`live, this`cleaned, this`completed, skb, kinds
      ensures cleaned == old(cleaned) + 1 && Holds(log) && FreeFrom(|log|)
      ensures live == multiset(Segments(log[cleaned..]))
      ensures var slot := log[old(cleaned)];
              && done == (IsLast(slot) && slot.skb.Some?)
              && completed == old(completed) + (if done then [slot.skb.value] else [])
              && len == if done then slot.skb.value.len else 0
    {
      hide Log, Pos, Decode, IsLs0, IsLs1, IsLast, Segments;
      done, len := false, 0;
      OnlyAt(cleaned);
      PosWraps(cleaned);
      ReadAtClean(log);
      var info2 := desc[clean].info2;
      var doneLast := IsLs0(info2) || IsLs1(info2);
      UnmapDesc(clean);
      if doneLast && skb[clean].Some? {
        done, len := true, skb[clean].value.len;
        completed := completed + [skb[clean].value];
        skb[clean] := None;
      }
      cleaned := cleaned + 1;
    }

    /** The loop of a clean: descriptor after descriptor up to the index read, or to the budget. */
    method CleanLoop(dtx: nat, budget: nat, ghost to: nat) returns (clean: nat, pkts: nat, total: nat)
      requires Valid() && dtx < RING && to == Target(cleaned, dtx) <= |Log(sent)|
      modifies this`live, this`cleaned, this`completed, skb, kinds
      ensures Shape() && Holds(Log(sent)) && FreeFrom(|Log(sent)|) && clean == Pos(cleaned)
      ensures old(cleaned) <= cleaned == Reach(Log(sent), old(cleaned), to, budget)
      ensures live == multiset(Segments(Log(sent)[cleaned..]))
      ensures var done := Completions(Log(sent)[old(cleaned)..cleaned]);
              completed == old(completed) + done && pkts == |done| && total == TotalLen(done)
    {
      hide Log, Pos, Segments, Completions, TotalLen, Holds, FreeFrom, IsLast, Target, ValidSent;
      ghost var log, c0 := Log(sent), cleaned;
      PosOfTarget(cleaned, dtx);
      clean, pkts, total := cleanIdx, 0, 0;
      NoCompletions(log, c0);
      while clean != dtx && pkts < budget
        invariant c0 <= cleaned <= to && clean == Pos(cleaned) && Holds(log) && FreeFrom(|log|)
        invariant live == multiset(Segments(log[cleaned..]))
        invariant completed == old(completed) + Completions(log[c0..cleaned])
        invariant pkts == |Completions(log[c0..cleaned])| <= budget && total == TotalLen(Completions(log[c0..cleaned]))
        invariant Reach(log, c0, to, budget) == Reach(log, cleaned, to, budget - pkts)
        decreases (to as int) - cleaned
      {
        MarksOfLog(sent, cleaned);
        NextCompletion(log, c0, cleaned);
        PosAdd(cleaned, 1);
        var done, len := CleanOne(clean, log);
        if done { pkts, total := pkts + 1, total + len; }
        clean := (clean + 1) % RING;
      }
      if cleaned != to { PosApart(cleaned, cleaned, to); }
    }

    method Account(clean: nat, pkts: nat, total: nat, ghost v0: Tx)
      requires Inv(v0) && v0.cleaned <= cleaned <= |Log(v0.sent)|
      requires var done := Completions(Log(v0.sent)[v0.cleaned..cleaned]);
               && View() == v0.(cleaned := cleaned, live := live, completed := v0.completed + done)
               && pkts == |done| && total == TotalLen(done)
      requires live == multiset(Segments(Log(v0.sent)[cleaned..]))
      modifies this`cleanIdx, this`packets, this`bytes
      ensures cleanIdx == clean && View() == CleanedTo(v0, cleaned)
    {
      hide Log, Inv, Segments, Completions, TotalLen;
      AccountsOf(v0, cleaned);
      cleanIdx := clean;
      if pkts > 0 { packets, bytes := packets + pkts, bytes + total; }
    }

    method Wake()
      requires cleanIdx == Pos(cleaned) && cpuIdx == Pos(|Log(sent)|)
      modifies this`stopped, this`woken
      ensures View() == Woken(old(View()))
    {
      hide Log, Pos;
      if stopped && Avail(cleanIdx, cpuIdx) >= WAKE_THRESH { stopped, woken := false, true; }
    }

    /** Clean up to the hardware index or the budget, account for what completed, and wake a stopped queue that
        has room again. The hardware index lies between the clean index and the software index. */
    method CleanQ(dtx: nat, budget: nat) returns (pkts: nat)
      requires Valid() && dtx < RING && Target(cleaned, dtx) <= |Log(sent)|
      modifies this`cleanIdx, this`packets, this`bytes, this`stopped
      modifies this`live, this`cleaned, this`completed, this`woken, skb, kinds
      ensures Valid() && View() == Clean(old(View()), Target(old(cleaned), dtx), budget)
      ensures pkts == |completed| - |old(completed)| && pkts <= budget
      ensures pkts < budget ==> cleanIdx == dtx
      ensures packets == old(packets) + pkts && stopped == (old(stopped) && InFlight(View()) > 96)
      ensures woken == (old(woken) || (old(stopped) && !stopped))
    {
      hide Log, Inv, Pos, Segments, Completions, TotalLen, Holds, FreeFrom, Target, Reach, CleanedTo, Woken;
      ghost var v0, to := View(), Target(cleaned, dtx);
      InvOfValid();
      PosOfTarget(cleaned, dtx);
      CleanKeepsInv(v0, to, budget);
      ReachSpec(Log(sent), cleaned, to, budget);
      var clean, total;
      clean, pkts, total := CleanLoop(dtx, budget, to);
      Account(clean, pkts, total, v0);
      ghost var v1 := View();
      CleanedStill(v0, cleaned);
      WokenMeans(v1);
      Wake();
    }

    lemma InvOfValid()
      requires Valid()
      ensures Shape() && Inv(View()) && 0 <= InFlight(View()) <= RING - STOP_RESERVE
      ensures cpuIdx == Pos(|Log(sent)|) && cleanIdx == Pos(cleaned)
    {}
  }

  function LinearSent(packet: Skb, headLen: bv32, info4: bv32, dma: Option<bv32>): Sent {
    Sent(packet, [Seg(Single, if dma.Some? then dma.value else 0, headLen)], info4)
  }

  lemma SegsOf(d: Desc, kinds: bv8, skb: Option<Skb>)
    ensures multiset(Decode(d, kinds, skb).segs) == multiset(Seg0(d, kinds)) + multiset(Seg1(d, kinds))
  {
    hide Seg0, Seg1;
  }

  /** One packet was added to those sent: head first and mapped singly, then its fragments, mapped as pages. */
  ghost predicate IsSg(before: seq<Sent>, after: seq<Sent>, packet: Skb, lens: seq<bv32>, info4: bv32, dmas: seq<Option<bv32>>)
    requires |lens| == |dmas|
  {
    && |after| == |before| + 1 && after[..|before|] == before
    && var x := after[|before|];
       && x.skb == packet && x.info4 == info4 && |x.segs| == |lens|
       && forall i :: 0 <= i < |lens| ==> dmas[i].Some? && x.segs[i] == Seg(if i == 0 then Single else Page, dmas[i].value, lens[i])
  }

  lemma SgIsSg(before: seq<Sent>, packet: Skb, lens: seq<bv32>, info4: bv32, dmas: seq<Option<bv32>>)
    requires |lens| == |dmas| && AllMapped(dmas)
    ensures IsSg(before, before + [SgSent(packet, lens, info4, dmas)], packet, lens, info4, dmas)
  {}

  predicate AllMapped(dmas: seq<Option<bv32>>) { forall k :: 0 <= k < |dmas| ==> dmas[k].Some? }

  function SgSent(packet: Skb, lens: seq<bv32>, info4: bv32, dmas: seq<Option<bv32>>): Sent
    requires |lens| == |dmas|
  {
    Sent(packet, seq(|lens|, i requires 0 <= i < |lens| =>
           Seg(if i == 0 then Single else Page, if dmas[i].Some? then dmas[i].value else 0, lens[i])), info4)
  }

  lemma SgIsValid(packet: Skb, lens: seq<bv32>, info4: bv32, dmas: seq<Option<bv32>>)
    requires 1 <= |lens| <= 32 && |dmas| == |lens| && forall i :: 0 <= i < |lens| ==> ValidLen(lens[i])
    ensures ValidSent(SgSent(packet, lens, info4, dmas))
  {}

  lemma SgLength(packet: Skb, lens: seq<bv32>, info4: bv32, dmas: seq<Option<bv32>>)
    requires |lens| == |dmas|
    ensures |SgSent(packet, lens, info4, dmas).segs| == |lens| && SgSent(packet, lens, info4, dmas).info4 == info4
  {}

  lemma SgSegment(packet: Skb, lens: seq<bv32>, info4: bv32, dmas: seq<Option<bv32>>, m: nat)
    requires 1 <= m < |lens| == |dmas| && dmas[m].Some? && ValidSent(SgSent(packet, lens, info4, dmas))
    ensures var segs := SgSent(packet, lens, info4, dmas).segs;
            && segs[m] == Seg(Page, dmas[m].value, lens[m]) && ValidLen(lens[m])
            && multiset(segs[..m + 1]) == multiset(segs[..m]) + multiset{segs[m]}
  {
    hide ValidLen;
    var segs := SgSent(packet, lens, info4, dmas).segs;
    assert segs[..m + 1] == segs[..m] + [segs[m]];
  }

  lemma LinearIsValid(packet: Skb, headLen: bv32, info4: bv32, dma: Option<bv32>)
    requires ValidLen(headLen)
    ensures ValidSent(LinearSent(packet, headLen, info4, dma))
  {}

  lemma LinearDecodes(packet: Skb, headLen: bv32, info4: bv32, dma: Option<bv32>)
    requires ValidLen(headLen) && dma.Some?
    ensures Pack(LinearSent(packet, headLen, info4, dma))
            == [Decode(Desc(dma.value, Or(PrepSdl0(headLen), LS0), 0, info4), 0, Some(packet))]
  {
    hide Sdl0, Sdl1, IsLs0, IsLs1, Or, PrepSdl0, Kind0, Kind1;
    var x := LinearSent(packet, headLen, info4, dma);
    PutSlot0(headLen);
    MarkLs0(PrepSdl0(headLen));
    MapBits(0);
    assert Pack(x) == [PackAt(x, 0)];
    assert x.segs[0..1] == x.segs;
    var d := Desc(dma.value, Or(PrepSdl0(headLen), LS0), 0, info4);
    assert Seg0(d, 0) == x.segs;
    assert Seg1(d, 0) == [];
    assert Decode(d, 0, Some(packet)).segs == x.segs;
    assert PackAt(x, 0).segs == x.segs;
  }
}
