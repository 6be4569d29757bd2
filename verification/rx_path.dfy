/** The receive path where rings and flow engine meet: which packets the engine's reports keep from the stack. */
module RxPath {
  import opened Wire
  import opened Flow
  import opened Foe
  import opened Generation
  import opened Protocol
  import opened Runs
  import opened Paths
  import opened Engine
  import opened RxRings

  function SlotOf(report: Report): nat { if report.NoReport? then 0 else report.foe as nat }

  /** The slot was learned for a linked live flow that owns no slot. */
  ghost predicate Promotable(g: Gen, s: State, slot: nat) {
    && slot < |s.foe| && StateOf(s.foe[slot]) == UNBIND
    && exists c :: c in s.tuples && c in s.flows && !s.flows[c].dead
                   && KeyOf(g, s.foe[slot]) == Some(s.flows[c].key) && !exists i :: Owns(g, s, c, i)
  }

  /** One packet from the ring with the flow engine behind it. A packet without a report goes up the stack. One reported as having reached the bind rate
      is withheld exactly when it makes its slot BIND, and a keepalive report is always withheld; where the slot's
      tuple belongs to one flow, a packet makes its slot BIND exactly when the slot is promotable. */
  method Receive(ring: RxRing, ppe: Ppe, f: Format, spare: Option<Page>, built: bool, timestamp: bv32, now: nat)
    returns (bytes: int)
    requires ring.Valid() && Full(ring.View()) && (spare.Some? ==> spare.value in ring.pool)
    requires ppe.Valid() && ppe.phase == Running && Inv(ppe.cfg, ppe.View())
    requires ring.Repr() !! ({ppe, ppe.foe} + ppe.flowTable.Values)
    modifies ring.Repr(), ppe.foe, ppe.flowTable.Values
    ensures ring.Valid() && Full(ring.View()) && All(ring.View()) == All(old(ring.View()))
    ensures ppe.Valid() && Inv(ppe.cfg, ppe.View())
    ensures var i := (old(ring.cpuIdx) + 1) % RX_RING;
            var d, own, s := old(ring.desc[i]), old(ring.page[i]).value, old(ppe.View());
            var report := ReportOf(f, d.info4);
            var slot := SlotOf(report);
            if !d.done then bytes == -1 && Same(ring.page[i], ring.held, own, old(ring.held)) && ppe.View() == s
            else if spare.None? then bytes == 0 && Same(ring.page[i], ring.held, own, old(ring.held)) && ppe.View() == s
            else if !built then
              bytes == 0 && ring.page[i] == spare && ring.held == old(ring.held) && own in ring.pool && ppe.View() == s
            else if report.NoReport? then
              bytes == d.len && ring.page[i] == spare && ring.held == old(ring.held) + {own} && ppe.View() == s
            else if report.KeepAlive? || Binds(s, ppe.View(), slot) then
              bytes == 0 && ring.page[i] == spare && ring.held == old(ring.held) && own in ring.pool
            else
              bytes == d.len && ring.page[i] == spare && ring.held == old(ring.held) + {own}
    ensures var s := old(ppe.View());
            var report := ReportOf(f, old(ring.desc[(ring.cpuIdx + 1) % RX_RING]).info4);
            old(ring.desc[(ring.cpuIdx + 1) % RX_RING]).done && spare.Some? && built && report.UnbindRate?
            && AloneAt(ppe.cfg.gen, s, SlotOf(report)) ==>
              (Binds(s, ppe.View(), SlotOf(report)) <==> Promotable(ppe.cfg.gen, s, SlotOf(report)))
  {
    hide All, Full, Inv, ReportOf, Promotable, SlotOf, Binds, BindsFor, AloneAt, Exchange, FateOf;
    var d := ring.desc[(ring.cpuIdx + 1) % RX_RING];
    var report, accepted := ReportOf(f, d.info4), false;
    if d.done && spare.Some? && built && !report.NoReport? {
      accepted := CheckReport(ppe, report, timestamp, now);
    }
    bytes := ring.ConsumeOne(f, spare, built, accepted);
  }

  /** The slot and the pages of live packets are as they were. */
  predicate Same(page: Option<Page>, held: set<Page>, own: Page, before: set<Page>) { page == Some(own) && held == before }

  /** The slot was UNBIND and is BIND now. */
  ghost predicate Binds(s: State, t: State, slot: nat) {
    slot < |s.foe| == |t.foe| && StateOf(s.foe[slot]) == UNBIND && StateOf(t.foe[slot]) == BIND
  }

  /** The check of one report keeps the protocol's invariant. A bind-rate report is accepted exactly when it makes
      its slot BIND; then a linked live flow with the learned tuple owns the slot, which carries its template. No
      other slot changes, and a keepalive changes none. */
  method CheckReport(ppe: Ppe, report: Report, timestamp: bv32, now: nat) returns (ok: bool)
    requires !report.NoReport? && ppe.Valid() && ppe.phase == Running && Inv(ppe.cfg, ppe.View())
    modifies ppe.foe, ppe.flowTable.Values
    ensures ppe.Valid() && Inv(ppe.cfg, ppe.View())
    ensures var s, t, slot := old(ppe.View()), ppe.View(), SlotOf(report);
            if report.KeepAlive? then t.foe == s.foe else (ok <==> Binds(s, t, slot)) && BindsFor(ppe.cfg.gen, s, t, slot, ok)
    ensures report.UnbindRate? && AloneAt(ppe.cfg.gen, old(ppe.View()), SlotOf(report)) ==>
              (ok <==> Promotable(ppe.cfg.gen, old(ppe.View()), SlotOf(report)))
  {
    hide Inv, SlotOf, Protocol.Enabled, Checked, Owns, KeyOf, StateOf, BindsFor, Binds, AloneAt;
    ghost var s := ppe.View();
    ghost var pick;
    ok, pick := ppe.OffloadCheck(SlotOf(report), report.KeepAlive?, timestamp, now);
    ghost var ev := Check(SlotOf(report), report.KeepAlive?, pick, timestamp, now);
    InvStep(ppe.cfg, s, ev);
    if report.UnbindRate? {
      AcceptedCheckBinds(ppe.cfg, s, ev);
      if AloneAt(ppe.cfg.gen, s, SlotOf(report)) { PromotedExactly(ppe.cfg, s, ev); }
    } else {
      KeepaliveKeepsTable(ppe.cfg, s, ev);
    }
  }

  /** What an accepted or refused bind-rate report does to the table. */
  ghost predicate BindsFor(g: Gen, s: State, t: State, slot: nat, ok: bool) {
    && (ok ==> slot < |t.foe| && slot < |s.foe|)
    && (ok ==> exists c :: Owns(g, t, c, slot) && !t.flows[c].dead && KeyOf(g, s.foe[slot]) == Some(t.flows[c].key))
    && |t.foe| == |s.foe| && forall i :: 0 <= i < |s.foe| && !(ok && i == slot) ==> t.foe[i] == s.foe[i]
  }

  lemma AcceptedCheckBinds(cfg: Config, s: State, ev: Protocol.Event)
    requires ev.Check? && !ev.keepalive && Inv(cfg, s) && Protocol.Enabled(cfg, s, ev)
    ensures var (t, ok) := Checked(cfg.gen, s, ev.slot, false, ev.pick, ev.timestamp, ev.now);
            (ok <==> Binds(s, t, ev.slot)) && BindsFor(cfg.gen, s, t, ev.slot, ok)
  {
    hide KeyOf, StateOf, Compiled, CarriesTemplate, Promoted, TablesAgree, FlowsAgree, PhaseAgrees;
    var (t, ok) := Checked(cfg.gen, s, ev.slot, false, ev.pick, ev.timestamp, ev.now);
    if ok {
      var c := ev.pick.value;
      var entry := s.flows[c];
      CompiledKey(cfg.gen, entry.rule, cfg.topology);
      PromotedCarries(cfg.gen, entry.template, s.foe[ev.slot], ev.slot, s.dsa, ev.timestamp);
      CarriedKey(cfg.gen, t.foe[ev.slot], entry.template);
      assert Owns(cfg.gen, t, c, ev.slot);
    }
  }

  lemma KeepaliveKeepsTable(cfg: Config, s: State, ev: Protocol.Event)
    requires ev.Check? && ev.keepalive
    ensures Checked(cfg.gen, s, ev.slot, true, ev.pick, ev.timestamp, ev.now).0.foe == s.foe
  {
    hide KeyOf, StateOf;
  }
}
