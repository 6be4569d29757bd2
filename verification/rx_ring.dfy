/** struct ralink_fe_rx_ring: who owns which page, on every path of a received packet. */
module RxRings {
  import opened Wire

  const RX_RING: nat := 256

  /** 64 bytes plus NET_IP_ALIGN, which is 2 where an architecture does not override it. */
  const HEADROOM: nat := 66

  /** A page of the pool with the bus address it was mapped to. */
  datatype Page = Page(id: nat, dma: nat)

  /** struct ralink_fe_rx_desc: address, the DONE bit and length of info2, and info4. */
  datatype RxDesc = RxDesc(addr: nat, done: bool, len: nat, info4: bv32)

  function BusAddress(dma: nat): nat { (dma + HEADROOM) % 0x1_0000_0000 }

  // ---- What a received packet's info4 says about the flow engine ----

  datatype Report = NoReport | UnbindRate(foe: bv32) | KeepAlive(foe: bv32)

  /** How this chip reports; the two reason codes are the chip's. */
  datatype Format = Format(ppe: bool, v2: bool, unbindRate: bv32, keepAlive: bv32)

  function ReasonOf(f: Format, info4: bv32): bv32 {
    if f.v2 then (info4 >> 14) & 0x1f else (info4 >> 16) & 0xff
  }

  /** The entry index sits in the low 14 bits in both formats; v1 reports only with the AIS bit. */
  function ReportOf(f: Format, info4: bv32): Report {
    if !f.ppe || (!f.v2 && info4 & 0x0800_0000 == 0) then NoReport
    else if ReasonOf(f, info4) == f.unbindRate then UnbindRate(info4 & 0x3fff)
    else if ReasonOf(f, info4) == f.keepAlive then KeepAlive(info4 & 0x3fff)
    else NoReport
  }

  /** A v1 report with the AIS bit and a v2 report, with any bits around reason and entry, and what they are read as. */
  lemma ReportRoundTrip(f: Format, reason: bv32, foe: bv32, rest: bv32)
    requires f.ppe && foe <= 0x3fff && reason <= (if f.v2 then 0x1f else 0xff)
    ensures var info4 := if f.v2 then (rest & 0xfff8_0000) | (reason << 14) | foe
                         else (rest & 0xf700_c000) | 0x0800_0000 | (reason << 16) | foe;
            ReportOf(f, info4) == if reason == f.unbindRate then UnbindRate(foe) else if reason == f.keepAlive then KeepAlive(foe) else NoReport
  {
    if f.v2 { Fields2(reason, foe, rest); } else { Fields1(reason, foe, rest); }
  }

  lemma Fields1(reason: bv32, foe: bv32, rest: bv32)
    requires foe <= 0x3fff && reason <= 0xff
    ensures var w := (rest & 0xf700_c000) | 0x0800_0000 | (reason << 16) | foe;
            w & 0x0800_0000 != 0 && (w >> 16) & 0xff == reason && w & 0x3fff == foe
  {}

  lemma Fields2(reason: bv32, foe: bv32, rest: bv32)
    requires foe <= 0x3fff && reason <= 0x1f
    ensures var w := (rest & 0xfff8_0000) | (reason << 14) | foe; (w >> 14) & 0x1f == reason && w & 0x3fff == foe
  {}

  /** A chip without the engine, or a v1 packet without the AIS bit, reports nothing. */
  lemma NothingReported(f: Format, info4: bv32)
    requires !f.ppe || (!f.v2 && info4 & 0x0800_0000 == 0)
    ensures ReportOf(f, info4) == NoReport
  {}

  /** Where it fits the descriptor's 32 bits, the bus address is 66 bytes into the page. */
  lemma PastHeadroom(dma: nat)
    requires dma + 66 < 0x1_0000_0000
    ensures BusAddress(dma) == dma + 64 + 2
  {}

  // ---- Ownership, as values ----

  /** The pages in the ring's slots, those free in the pool, and those that live packets hold. */
  datatype Pages = Pages(slots: seq<Option<Page>>, pool: set<Page>, held: set<Page>)

  function InSlots(slots: seq<Option<Page>>): set<Page> {
    set i | 0 <= i < |slots| && slots[i].Some? :: slots[i].value
  }

  function All(s: Pages): set<Page> { InSlots(s.slots) + s.pool + s.held }

  /** No page is in two slots, and slots, pool and live packets share none. */
  ghost predicate Owned(s: Pages) {
    && (forall i, j :: 0 <= i < j < |s.slots| && s.slots[i].Some? ==> s.slots[i] != s.slots[j])
    && InSlots(s.slots) !! s.pool && InSlots(s.slots) !! s.held && s.pool !! s.held
  }

  ghost predicate Full(s: Pages) { forall i :: 0 <= i < |s.slots| ==> s.slots[i].Some? }

  /** What becomes of one received packet. */
  datatype Fate =
    | KeptPage                // no replacement page: the packet is dropped, the slot keeps its page
    | Returned(spare: Page)   // no packet could be built, or the flow engine consumed it: the page goes back
    | Delivered(spare: Page)  // the page goes up the stack with the packet

  function Exchange(s: Pages, i: nat, fate: Fate): Pages
    requires i < |s.slots| && s.slots[i].Some?
  {
    match fate
    case KeptPage => s
    case Returned(spare) => Pages(s.slots[i := Some(spare)], s.pool - {spare} + {s.slots[i].value}, s.held)
    case Delivered(spare) => Pages(s.slots[i := Some(spare)], s.pool - {spare}, s.held + {s.slots[i].value})
  }

  /** Every fate exchanges at most one page for one page: ownership stays unique and no page is lost or made. */
  lemma ExchangeConserves(s: Pages, i: nat, fate: Fate)
    requires Owned(s) && Full(s) && i < |s.slots|
    requires fate.KeptPage? || fate.spare in s.pool
    ensures var t := Exchange(s, i, fate);
            Owned(t) && Full(t) && All(t) == All(s) && |t.slots| == |s.slots|
    ensures fate.Delivered? ==> s.slots[i].value in Exchange(s, i, fate).held
  {
    if !fate.KeptPage? {
      SlotsAfter(s.slots, i, fate.spare);
      InSlot(s.slots, i);
    }
  }

  lemma InSlot(slots: seq<Option<Page>>, i: nat)
    requires i < |slots| && slots[i].Some?
    ensures slots[i].value in InSlots(slots)
  {}

  lemma SlotsAfter(slots: seq<Option<Page>>, i: nat, spare: Page)
    requires i < |slots| && slots[i].Some? && spare !in InSlots(slots)
    requires forall j, k :: 0 <= j < k < |slots| && slots[j].Some? ==> slots[j] != slots[k]
    ensures InSlots(slots[i := Some(spare)]) == InSlots(slots) - {slots[i].value} + {spare}
  {
    var after := slots[i := Some(spare)];
    forall p | p in InSlots(slots) - {slots[i].value} + {spare} ensures p in InSlots(after) {
      if p == spare {
        assert after[i] == Some(p);
      } else {
        var j :| 0 <= j < |slots| && slots[j] == Some(p);
        assert after[j] == Some(p);
      }
    }
  }

  /** What the receive path makes of a packet: `built` whether a packet could be built around its page,
      `accepted` what the flow engine's check answers. */
  function FateOf(spare: Option<Page>, built: bool, report: Report, accepted: bool): Fate {
    match spare
    case None => KeptPage
    case Some(p) =>
      if !built || report.KeepAlive? || (report.UnbindRate? && accepted) then Returned(p) else Delivered(p)
  }

  /** Filling and emptying: slots [0, n) take pages out of the pool, or give them back. */
  lemma TakePage(s: Pages, i: nat, p: Page)
    requires Owned(s) && i < |s.slots| && s.slots[i].None? && p in s.pool
    ensures var t := Pages(s.slots[i := Some(p)], s.pool - {p}, s.held);
            Owned(t) && All(t) == All(s) && InSlots(t.slots) == InSlots(s.slots) + {p}
  {
    var after := s.slots[i := Some(p)];
    assert after[i] == Some(p);
    forall q | q in InSlots(s.slots) ensures q in InSlots(after) {
      var j :| 0 <= j < |s.slots| && s.slots[j] == Some(q);
      assert after[j] == Some(q);
    }
    forall j, k | 0 <= j < k < |after| && after[j].Some? ensures after[j] != after[k] {
      if j == i && after[k].Some? { InSlot(s.slots, k); }
      if k == i { InSlot(s.slots, j); }
    }
  }

  lemma GivePage(s: Pages, i: nat)
    requires Owned(s) && i < |s.slots| && s.slots[i].Some?
    ensures var t := Pages(s.slots[i := None], s.pool + {s.slots[i].value}, s.held);
            Owned(t) && All(t) == All(s)
  {
    var p := s.slots[i].value;
    var after := s.slots[i := None];
    InSlot(s.slots, i);
    forall q | q in InSlots(s.slots) && q != p ensures q in InSlots(after) {
      var j :| 0 <= j < |s.slots| && s.slots[j] == Some(q);
      assert after[j] == Some(q);
    }
    assert InSlots(after) == InSlots(s.slots) - {p};
  }

  // ---- Runs ----

  /** A packet is taken from slot i, or one that was passed up is freed. */
  datatype Event = Packet(i: nat, fate: Fate) | Freed(page: Page)

  ghost predicate Enabled(s: Pages, ev: Event) {
    match ev
    case Packet(i, fate) => i < |s.slots| && s.slots[i].Some? && (fate.KeptPage? || fate.spare in s.pool)
    case Freed(p) => p in s.held
  }

  ghost predicate StepOk(s: Pages, ev: Event, t: Pages) {
    && Enabled(s, ev)
    && t == match ev
            case Packet(i, fate) => Exchange(s, i, fate)
            case Freed(p) => Pages(s.slots, s.pool + {p}, s.held - {p})
  }

  /** Page conservation: through any sequence of deliveries, drops, consumed packets and frees, every slot holds
      exactly one page, no page has two owners, and the set of all pages stays the same. */
  lemma {:induction false} PagesConserved(states: seq<Pages>, evs: seq<Event>, k: nat)
    requires |states| == |evs| + 1 && k < |states| && Owned(states[0]) && Full(states[0])
    requires forall j :: 0 <= j < |evs| ==> StepOk(states[j], evs[j], states[j + 1])
    ensures Owned(states[k]) && Full(states[k]) && All(states[k]) == All(states[0])
  {
    hide Owned, All, Exchange;
    if k > 0 {
      PagesConserved(states, evs, k - 1);
      assert StepOk(states[k - 1], evs[k - 1], states[k]);
      StepConserves(states[k - 1], evs[k - 1], states[k]);
    }
  }

  lemma StepConserves(s: Pages, ev: Event, t: Pages)
    requires Owned(s) && Full(s) && StepOk(s, ev, t)
    ensures Owned(t) && Full(t) && All(t) == All(s)
  {
    hide Exchange;
    match ev {
      case Packet(i, fate) => ExchangeConserves(s, i, fate);
      case Freed(_) =>
    }
  }

  class RxRing {
    const desc: array<RxDesc>
    const page: array<Option<Page>>
    const dma: array<nat>
    var cpuIdx: nat
    var refillFail: nat
    var dropped: nat
    var pool: set<Page>
    ghost var held: set<Page>

    ghost function Repr(): set<object> { {this, desc, page, dma} }

    ghost predicate Shape() {
      && desc.Length == RX_RING && page.Length == RX_RING && dma.Length == RX_RING
      && (desc as object) != page && (desc as object) != dma && (page as object) != dma
    }

    ghost function View(): Pages
      reads this, page
    {
      Pages(page[..], pool, held)
    }

    /** A slot's recorded address is its page's, and its descriptor points past the headroom of that buffer. */
    ghost predicate Armed(i: nat)
      requires Shape() && i < RX_RING
      reads desc, page, dma
    {
      page[i].Some? ==> dma[i] == page[i].value.dma && desc[i].addr == BusAddress(dma[i])
    }

    ghost predicate Valid()
      reads this, desc, page, dma
    {
      Shape() && cpuIdx < RX_RING && Owned(View()) && forall i :: 0 <= i < RX_RING ==> Armed(i)
    }

    /** A ring without buffers. */
    constructor (pool: set<Page>)
      ensures Valid() && Empty() && View().pool == pool && held == {} && fresh(Repr())
    {
      desc := new RxDesc[RX_RING](_ => RxDesc(0, false, 0, 0));
      page := new Option<Page>[RX_RING](_ => None);
      dma := new nat[RX_RING](_ => 0);
      cpuIdx, refillFail, dropped := 0, 0, 0;
      this.pool, held := pool, {};
    }

    /** The hardware writes a packet into the buffer of a descriptor and hands it over. */
    method HwReceive(i: nat, len: nat, info4: bv32)
      requires Valid() && i < RX_RING
      modifies desc
      ensures Valid() && View() == old(View())
    {
      hide Owned;
      desc[i] := desc[i].(done := true, len := len, info4 := info4);
      forall k | 0 <= k < RX_RING ensures Armed(k) { assert old(Armed(k)); }
    }

    /** A packet that was passed up is freed: its page is recycled. */
    method Recycle(p: Page)
      requires Valid() && p in held
      modifies this`held, this`pool
      ensures Valid() && View() == old(View()).(held := old(held) - {p}, pool := old(pool) + {p})
      ensures All(View()) == All(old(View()))
    {
      held, pool := held - {p}, pool + {p};
    }

    /** Rearm a slot with a page that is its own. */
    method Rearm(i: nat, p: Page)
      requires Shape() && i < RX_RING
      modifies desc, page, dma, this`cpuIdx
      ensures cpuIdx == i && page[i] == Some(p) && Armed(i) && !desc[i].done
      ensures forall k :: 0 <= k < RX_RING && k != i ==>
                page[k] == old(page[k]) && dma[k] == old(dma[k]) && desc[k] == old(desc[k])
    {
      page[i] := Some(p);
      dma[i] := p.dma;
      desc[i] := RxDesc(BusAddress(p.dma), false, 0, 0);
      cpuIdx := i;
    }

    /** Consume the next descriptor if the hardware has handed it over. `spare` is what the pool allocates. The
        result is -1 for an empty ring, and otherwise the bytes that went up the stack. */
    method ConsumeOne(f: Format, spare: Option<Page>, built: bool, accepted: bool) returns (bytes: int)
      requires Valid() && Full(View()) && (spare.Some? ==> spare.value in pool)
      modifies Repr()
      ensures Valid() && Full(View()) && All(View()) == All(old(View()))
      ensures var i := (old(cpuIdx) + 1) % RX_RING;
              var d := old(desc[i]);
              var fate := FateOf(spare, built, ReportOf(f, d.info4), accepted);
              if d.done then
                && View() == Exchange(old(View()), i, fate) && cpuIdx == i && !desc[i].done
                && bytes == if fate.Delivered? then d.len else 0
              else
                View() == old(View()) && cpuIdx == old(cpuIdx) && bytes == -1 && desc[i] == d
      ensures var i := (old(cpuIdx) + 1) % RX_RING;
              var d, own := old(desc[i]), old(page[i]).value;
              var report := ReportOf(f, d.info4);
              if !d.done then bytes == -1 && page[i] == Some(own) && pool == old(pool) && held == old(held)
              else if spare.None? then bytes == 0 && page[i] == Some(own) && pool == old(pool) && held == old(held)
              else if !built then
                bytes == 0 && page[i] == spare && pool == old(pool) - {spare.value} + {own} && held == old(held)
              else if report.NoReport? || (report.UnbindRate? && !accepted) then
                bytes == d.len && page[i] == spare && pool == old(pool) - {spare.value} && held == old(held) + {own}
              else
                bytes == 0 && page[i] == spare && pool == old(pool) - {spare.value} + {own} && held == old(held)
      ensures forall k :: 0 <= k < RX_RING && k != (old(cpuIdx) + 1) % RX_RING ==> page[k] == old(page[k])
      ensures var done := old(desc[(cpuIdx + 1) % RX_RING].done);
              && refillFail == old(refillFail) + (if done && spare.None? then 1 else 0)
              && dropped == old(dropped) + (if done && (spare.None? || !built) then 1 else 0)
      ensures forall k :: 0 <= k < RX_RING && k != (old(cpuIdx) + 1) % RX_RING ==> desc[k] == old(desc[k])
    {
      hide Owned, ReportOf, BusAddress, All, InSlots;
      var i := (cpuIdx + 1) % RX_RING;
      if !desc[i].done { return -1; }
      ghost var v0 := View();
      var own, report, len := page[i].value, ReportOf(f, desc[i].info4), desc[i].len;
      ExchangeConserves(v0, i, FateOf(spare, built, report, accepted));
      if spare.None? {
        refillFail, dropped := refillFail + 1, dropped + 1;
        assert v0.slots[i := Some(own)] == v0.slots;
        RearmAs(i, own, v0);
        return 0;
      }
      pool := pool - {spare.value};
      if !built {
        dropped := dropped + 1;
        pool := pool + {own};
        RearmAs(i, spare.value, v0);
        return 0;
      }
      held := held + {own};
      if report.KeepAlive? || (report.UnbindRate? && accepted) {
        held, pool := v0.held, pool + {own};
        RearmAs(i, spare.value, v0);
        return 0;
      }
      RearmAs(i, spare.value, v0);
      return len;
    }

    /** Rearm, and what the slots are then. */
    method RearmAs(i: nat, p: Page, ghost v0: Pages)
      requires Shape() && i < RX_RING && View().slots == v0.slots && forall k :: 0 <= k < RX_RING ==> Armed(k)
      requires Owned(Pages(v0.slots[i := Some(p)], pool, held))
      modifies desc, page, dma, this`cpuIdx
      ensures Valid() && cpuIdx == i && View() == Pages(v0.slots[i := Some(p)], pool, held) && !desc[i].done
      ensures forall k :: 0 <= k < RX_RING && k != i ==> desc[k] == old(desc[k]) && page[k] == old(page[k])
      ensures page[i] == Some(p)
    {
      hide Owned, BusAddress;
      Rearm(i, p);
      assert page[..] == v0.slots[i := Some(p)];
      forall k | 0 <= k < RX_RING ensures Armed(k) {
        if k != i { assert old(Armed(k)); }
      }
    }

    // ---- Filling and emptying the ring ----

    ghost predicate Empty()
      reads page
    {
      forall k :: 0 <= k < page.Length ==> page[k].None?
    }

    /** Slots below i hold the allocated pages, the others none. */
    ghost predicate Filled(spares: seq<Option<Page>>, i: nat)
      requires |spares| == RX_RING && Shape()
      reads page
    {
      forall k :: 0 <= k < RX_RING ==> page[k] == if k < i then spares[k] else None
    }

    method FillSlot(i: nat, spares: seq<Option<Page>>, ghost i': nat)
      requires Valid() && i < RX_RING == |spares| && i' == i + 1 && Filled(spares, i) && spares[i].Some? && spares[i].value in pool
      modifies desc, page, dma, this`pool
      ensures Valid() && Filled(spares, i') && All(View()) == All(old(View()))
      ensures pool == old(pool) - {spares[i].value}
    {
      hide Owned, All, BusAddress, InSlots;
      ghost var v := View();
      var p := spares[i].value;
      TakePage(v, i, p);
      pool := pool - {p};
      page[i] := Some(p);
      dma[i] := p.dma;
      desc[i] := RxDesc(BusAddress(p.dma), false, 0, 0);
      assert page[..] == v.slots[i := Some(p)];
      forall k | 0 <= k < RX_RING ensures Armed(k) {
        if k != i { assert old(Armed(k)); }
      }
    }

    /** Fill an empty ring with fresh pages; on a failed allocation the slots filled so far stay filled. */
    method Refill(spares: seq<Option<Page>>) returns (err: Option<Error>)
      requires Valid() && Empty() && |spares| == RX_RING
      requires forall k :: 0 <= k < RX_RING && spares[k].Some? ==> spares[k].value in pool
      requires forall j, k :: 0 <= j < k < RX_RING && spares[j].Some? ==> spares[j] != spares[k]
      modifies desc, page, dma, this`pool, this`cpuIdx
      ensures Valid() && All(View()) == All(old(View())) && held == old(held)
      ensures err == if forall k :: 0 <= k < RX_RING ==> spares[k].Some? then None else Some(ENOMEM)
      ensures err.None? ==> Full(View()) && page[..] == spares && cpuIdx == RX_RING - 1
    {
      hide Owned, All, InSlots, Armed;
      var i := 0;
      while i < RX_RING
        invariant i <= RX_RING && Valid() && Filled(spares, i) && All(View()) == All(old(View()))
        invariant forall k :: 0 <= k < i ==> spares[k].Some?
        invariant forall k :: i <= k < RX_RING && spares[k].Some? ==> spares[k].value in pool
      {
        if spares[i].None? { return Some(ENOMEM); }
        FillSlot(i, spares, i + 1);
        i := i + 1;
      }
      cpuIdx := RX_RING - 1;
      assert page[..] == spares;
      return None;
    }

    method DropSlot(i: nat)
      requires Valid() && i < RX_RING
      modifies page, dma, this`pool
      ensures Valid() && All(View()) == All(old(View())) && page[i] == None
      ensures forall k :: 0 <= k < RX_RING && k != i ==> page[k] == old(page[k])
    {
      hide Owned, All, BusAddress, InSlots;
      if page[i].None? { return; }
      ghost var v := View();
      GivePage(v, i);
      pool := pool + {page[i].value};
      page[i] := None;
      dma[i] := 0;
      assert page[..] == v.slots[i := None];
      forall k | 0 <= k < RX_RING ensures Armed(k) {
        if k != i { assert old(Armed(k)); }
      }
    }

    /** Give every page of the ring back: what live packets hold is untouched, all else is in the pool again. */
    method Release()
      requires Valid()
      modifies page, dma, this`pool, this`cpuIdx
      ensures Valid() && Empty() && cpuIdx == 0 && held == old(held)
      ensures All(View()) == All(old(View())) && pool == All(View()) - held
    {
      hide Owned, All, InSlots, Armed;
      for i := 0 to RX_RING
        invariant Valid() && All(View()) == All(old(View()))
        invariant forall k :: 0 <= k < i ==> page[k].None?
      {
        DropSlot(i);
      }
      cpuIdx := 0;
      EmptyPool();
    }

    lemma EmptyPool()
      requires Valid() && Empty()
      ensures pool == All(View()) - held
    {}
  }
}
