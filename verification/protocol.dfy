/** The flow-offload protocol: hardware learning, RX promotion and rule control over one flow table. */
module Protocol {
  import opened Wire
  import opened Flow
  import opened Foe
  import opened Topology
  import opened Pedit
  import opened Generation

  type Cookie = nat

  /** struct ra_flow_entry with its descriptor template; `rule` is the rule it was compiled from. */
  datatype FlowEntry = FlowEntry(
    rule: Rule, key: Key, template: Foe, hash: nat, hashValid: bool, dead: bool, lastUsed: nat)

  /** Who holds the control lock, and how far its operation has come. */
  datatype Control =
    | Idle
    | Inserting(c: Cookie)          // in the cookie table, not yet in the tuple table
    | Dying(c: Cookie)              // marked dead
    | Unbound(c: Cookie)            // hardware association removed
    | TupleGone(c: Cookie)          // out of the tuple table, still in the cookie table
    | Forgetting(todo: set<Cookie>) // walking the cookie table, forgetting associations

  /** The engine: running, halted, halted with all associations forgotten, and with a cleared table. */
  datatype Phase = Running | Halted | Forgotten | Cleared

  datatype Config = Config(gen: Gen, topology: Device -> Egress)

  /** The table, the flows (the cookie table), the cookies also in the tuple table, and the two locks' state. */
  datatype State = State(
    foe: seq<Foe>, flows: map<Cookie, FlowEntry>, tuples: set<Cookie>, control: Control, phase: Phase, dsa: bool)

  datatype Event =
    | HwWrite(i: nat, after: Foe)
    | Check(slot: nat, keepalive: bool, pick: Option<Cookie>, timestamp: bv32, now: nat)
    | InsertCookie(c: Cookie, entry: FlowEntry)
    | InsertTuple
    | InsertTupleFails
    | MarkDead(c: Cookie)
    | Remove
    | UnlinkTuple
    | UnlinkCookie
    | FlushTuple(c: Cookie)
    | BeginForget
    | ForgetOne(c: Cookie)
    | EndForget
    | Halt
    | ClearAll
    | Enable
    | SetDsa(on: bool)

  // ---- The steps ----

  function Untimed(g: Gen, ib1: bv32): bv32 { ib1 & !TimestampMask(g) }

  /** The engine may do anything to an entry that is not bound, except binding it; in a bound entry it
      refreshes the timestamp or withdraws the binding. */
  predicate HwMay(g: Gen, before: Foe, after: Foe) {
    && (StateOf(after) == BIND ==>
          && StateOf(before) == BIND
          && after.(w0 := 0) == before.(w0 := 0)
          && Untimed(g, after.w0) == Untimed(g, before.w0))
  }

  /** An exact-match lookup in the tuple table returns a linked flow with that key, if there is one. */
  ghost predicate LookupResult(s: State, key: Key, pick: Option<Cookie>) {
    if pick.Some? then pick.value in s.tuples && pick.value in s.flows && s.flows[pick.value].key == key
    else forall c :: c in s.tuples && c in s.flows ==> s.flows[c].key != key
  }

  /** The slot is a BIND for this key. */
  predicate IsBound(g: Gen, e: Foe, key: Key) { StateOf(e) == BIND && KeyOf(g, e) == Some(key) }

  /** The flow's remembered slot is still its own BIND. */
  predicate StillBound(g: Gen, foe: seq<Foe>, entry: FlowEntry) {
    entry.hashValid && entry.hash < |foe| && IsBound(g, foe[entry.hash], entry.key)
  }

  /** The key under which the RX path looks a reported slot up: the slot must be in the reported state. */
  function CheckKey(g: Gen, foe: seq<Foe>, slot: nat, keepalive: bool): Option<Key> {
    if slot >= |foe| then None
    else if StateOf(foe[slot]) != (if keepalive then BIND else UNBIND) then None
    else KeyOf(g, foe[slot])
  }

  /** What the RX check does with the flow it found: (new table, new entry, accepted). */
  function CheckFlow(g: Gen, foe: seq<Foe>, dsa: bool, entry: FlowEntry, slot: nat, keepalive: bool,
                     timestamp: bv32, now: nat): (seq<Foe>, FlowEntry, bool)
    requires slot < |foe|
  {
    if entry.dead then (foe, entry, false)
    else if keepalive then
      if !entry.hashValid || entry.hash != slot then (foe, entry, false)
      else (foe, entry.(lastUsed := now), true)
    else if entry.hashValid && entry.hash != slot && StillBound(g, foe, entry) then (foe, entry, false)
    else
      (foe[slot := Promoted(g, entry.template, foe[slot], slot, dsa, timestamp)],
       entry.(hash := slot, hashValid := true, lastUsed := now), true)
  }

  /** offload_check: keepalive or promotion of one reported slot. */
  function Checked(g: Gen, s: State, slot: nat, keepalive: bool, pick: Option<Cookie>, timestamp: bv32, now: nat): (State, bool) {
    if CheckKey(g, s.foe, slot, keepalive).None? || pick.None? || pick.value !in s.flows then (s, false)
    else
      var (foe, entry, ok) := CheckFlow(g, s.foe, s.dsa, s.flows[pick.value], slot, keepalive, timestamp, now);
      (s.(foe := foe, flows := s.flows[pick.value := entry]), ok)
  }

  /** The hardware half of a destroy: clear the remembered slot only while it is this flow's BIND. */
  function Removed(g: Gen, foe: seq<Foe>, entry: FlowEntry): seq<Foe> {
    if StillBound(g, foe, entry) then foe[entry.hash := Withdrawn(g, foe[entry.hash])] else foe
  }

  /** An entry as prepare() and replace leave it: compiled from its rule, without an association. */
  ghost predicate Fresh(cfg: Config, entry: FlowEntry) {
    && !entry.hashValid && !entry.dead && entry.lastUsed == 0
    && Compiled(cfg.gen, entry.rule, cfg.topology) == Ok(Template(entry.key, entry.template))
  }

  ghost predicate Enabled(cfg: Config, s: State, ev: Event) {
    match ev
    case HwWrite(i, after) => i < |s.foe| && HwMay(cfg.gen, s.foe[i], after)
    case Check(slot, keepalive, pick, _, _) =>
      && s.phase == Running
      && var key := CheckKey(cfg.gen, s.foe, slot, keepalive);
         if key.None? then pick == None else LookupResult(s, key.value, pick)
    case InsertCookie(c, entry) => s.control == Idle && c !in s.flows && Fresh(cfg, entry)
    case InsertTuple => s.control.Inserting?
    case InsertTupleFails => s.control.Inserting?
    case MarkDead(c) => s.control == Idle && c in s.flows
    case Remove => s.control.Dying?
    case UnlinkTuple => s.control.Unbound?
    case UnlinkCookie => s.control.TupleGone?
    case FlushTuple(c) => s.control == Idle && s.phase != Running && c in s.flows
    case BeginForget => s.control == Idle && s.phase == Halted
    case ForgetOne(c) => s.control.Forgetting? && c in s.control.todo
    case EndForget => s.control == Forgetting({})
    case Halt => !s.control.Forgetting?
    case ClearAll => s.phase == Forgotten
    case Enable => s.phase == Cleared
    case SetDsa(_) => true
  }

  /** The state after an enabled event. */
  function Next(cfg: Config, s: State, ev: Event): State {
    match ev
    case HwWrite(i, after) => if i < |s.foe| then s.(foe := s.foe[i := after]) else s
    case Check(slot, keepalive, pick, timestamp, now) =>
      Checked(cfg.gen, s, slot, keepalive, pick, timestamp, now).0
    case InsertCookie(c, entry) => s.(flows := s.flows[c := entry], control := Inserting(c))
    case InsertTuple => if s.control.Inserting? then s.(tuples := s.tuples + {s.control.c}, control := Idle) else s
    case InsertTupleFails => if s.control.Inserting? then s.(flows := s.flows - {s.control.c}, control := Idle) else s
    case MarkDead(c) =>
      if c in s.flows then s.(flows := s.flows[c := s.flows[c].(dead := true)], control := Dying(c)) else s
    case Remove =>
      if s.control.Dying? && s.control.c in s.flows then
        var c := s.control.c;
        s.(foe := Removed(cfg.gen, s.foe, s.flows[c]),
           flows := s.flows[c := s.flows[c].(hashValid := false)], control := Unbound(c))
      else s
    case UnlinkTuple =>
      if s.control.Unbound? then s.(tuples := s.tuples - {s.control.c}, control := TupleGone(s.control.c)) else s
    case UnlinkCookie =>
      if s.control.TupleGone? then s.(flows := s.flows - {s.control.c}, control := Idle) else s
    case FlushTuple(c) =>
      if c in s.flows then
        s.(flows := s.flows[c := s.flows[c].(dead := true)], tuples := s.tuples - {c}, control := TupleGone(c))
      else s
    case BeginForget => s.(control := Forgetting(s.flows.Keys))
    case ForgetOne(c) =>
      if s.control.Forgetting? && c in s.flows then
        s.(flows := s.flows[c := s.flows[c].(hashValid := false)], control := Forgetting(s.control.todo - {c}))
      else s
    case EndForget => s.(control := Idle, phase := Forgotten)
    case Halt => s.(phase := Halted)
    case ClearAll => s.(foe := seq(|s.foe|, _ => ZERO_FOE), phase := Cleared)
    case Enable => s.(phase := Running)
    case SetDsa(on) => s.(dsa := on)
  }

  /** The slot that a flow remembers is cleared if it is its BIND, and nothing else changes. */
  ghost predicate OwnSlotCleared(g: Gen, before: seq<Foe>, after: seq<Foe>, entry: FlowEntry) {
    && |after| == |before|
    && forall i :: 0 <= i < |before| ==>
         if entry.hashValid && entry.hash == i && IsBound(g, before[i], entry.key) then Invalidated(g, before[i], after[i])
         else after[i] == before[i]
  }

  lemma RemovedClears(g: Gen, foe: seq<Foe>, entry: FlowEntry)
    ensures OwnSlotCleared(g, foe, Removed(g, foe, entry), entry)
  {
    hide KeyOf, StateOf, Withdrawn, Invalidated;
    if StillBound(g, foe, entry) { WithdrawnIsInvalid(g, foe[entry.hash]); }
  }

  /** Only the engine learns: no software step makes a slot UNBIND. */
  lemma OnlyHardwareLearns(cfg: Config, s: State, ev: Event, i: nat)
    requires Enabled(cfg, s, ev) && i < |s.foe| && i < |Next(cfg, s, ev).foe|
    requires StateOf(Next(cfg, s, ev).foe[i]) == UNBIND && StateOf(s.foe[i]) != UNBIND
    ensures ev.HwWrite? && ev.i == i
  {
    StepStates(cfg, s, ev, i);
  }

  /** Only an accepted check binds. */
  lemma OnlyChecksBind(cfg: Config, s: State, ev: Event, i: nat)
    requires Enabled(cfg, s, ev) && i < |s.foe| && i < |Next(cfg, s, ev).foe|
    requires StateOf(Next(cfg, s, ev).foe[i]) == BIND && StateOf(s.foe[i]) != BIND
    ensures ev.Check? && ev.slot == i && StateOf(s.foe[i]) == UNBIND
  {
    hide HwMay;
    StepStates(cfg, s, ev, i);
    if ev.HwWrite? { HwBindsNothing(cfg.gen, s.foe[i], ev.after); }
  }

  lemma HwBindsNothing(g: Gen, before: Foe, after: Foe)
    requires HwMay(g, before, after) && StateOf(after) == BIND
    ensures StateOf(before) == BIND
  {}

  /** What each kind of step may do to the state of a slot. */
  lemma StepStates(cfg: Config, s: State, ev: Event, i: nat)
    requires Enabled(cfg, s, ev) && i < |s.foe| && i < |Next(cfg, s, ev).foe|
    ensures var before, after := s.foe[i], Next(cfg, s, ev).foe[i];
            || after == before
            || (ev.HwWrite? && ev.i == i && after == ev.after)
            || (ev.Check? && ev.slot == i && StateOf(before) == UNBIND && StateOf(after) == BIND)
            || ((ev.Remove? || ev.ClearAll?) && StateOf(after) == INVALID)
  {
    hide KeyOf, StateOf, Withdrawn, Promoted, Compiled, HwMay, Invalidated;
    if ev.Remove? && s.control.Dying? && s.control.c in s.flows && StillBound(cfg.gen, s.foe, s.flows[s.control.c]) {
      WithdrawnIsInvalid(cfg.gen, s.foe[s.flows[s.control.c].hash]);
    }
    if ev.Check? && ev.pick.Some? && ev.pick.value in s.flows {
      PromotedBinds(cfg.gen, s.flows[ev.pick.value].template, s.foe[i], i, s.dsa, ev.timestamp);
    }
    ZeroIsInvalid();
  }

  lemma ZeroIsInvalid()
    ensures StateOf(ZERO_FOE) == INVALID
  {}

  lemma PromotedBinds(g: Gen, template: Foe, hw: Foe, slot: nat, dsa: bool, timestamp: bv32)
    ensures StateOf(Promoted(g, template, hw, slot, dsa, timestamp)) == BIND
  {
    hide Promoted, FinalIb1, StateBits, KeptIb1;
    PromotedIb1(g, template, hw, slot, dsa, timestamp);
    FinalIb1Kept(g, template.w0, timestamp);
  }

  // ---- The invariant ----

  /** The cookie and tuple tables agree but for the flow that the control path is linking or unlinking. */
  ghost predicate TablesAgree(s: State) {
    match s.control
    case Idle => s.tuples == s.flows.Keys
    case Forgetting(_) => s.tuples == s.flows.Keys
    case Dying(c) => c in s.flows && s.tuples == s.flows.Keys
    case Unbound(c) => c in s.flows && s.tuples == s.flows.Keys
    case Inserting(c) => c in s.flows && s.tuples == s.flows.Keys - {c}
    case TupleGone(c) => c in s.flows && s.tuples == s.flows.Keys - {c}
  }

  predicate IsLeaving(control: Control, c: Cookie) {
    control == Dying(c) || control == Unbound(c) || control == TupleGone(c)
  }

  /** Only the flow being destroyed is dead, and an unbound flow has no association. */
  ghost predicate FlowsAgree(s: State) {
    && (forall c :: c in s.flows ==> (s.flows[c].dead <==> IsLeaving(s.control, c)))
    && (forall c :: c in s.flows && (s.control == Unbound(c) || s.control == Inserting(c)) ==> !s.flows[c].hashValid)
  }

  /** Every flow still holds what its rule compiles to. */
  ghost predicate FlowsCompiled(cfg: Config, s: State) {
    forall c :: c in s.flows ==>
      Compiled(cfg.gen, s.flows[c].rule, cfg.topology) == Ok(Template(s.flows[c].key, s.flows[c].template))
  }

  /** Flow c is linked, remembers slot i, and slot i is its BIND carrying its template. */
  ghost predicate Owns(g: Gen, s: State, c: Cookie, i: nat) {
    && c in s.tuples && c in s.flows && i < |s.foe|
    && s.flows[c].hashValid && s.flows[c].hash == i
    && IsBound(g, s.foe[i], s.flows[c].key)
    && CarriesTemplate(g, s.foe[i], s.flows[c].template)
  }

  ghost predicate Owned(g: Gen, s: State, i: nat) { exists c :: Owns(g, s, c, i) }

  /** Every BIND slot is owned by a linked flow. */
  ghost predicate SlotsAgree(g: Gen, s: State) {
    forall i :: 0 <= i < |s.foe| && StateOf(s.foe[i]) == BIND ==> Owned(g, s, i)
  }

  /** The flows whose association the control path has yet to forget. */
  function Remembering(s: State): set<Cookie> {
    if s.phase == Running then s.flows.Keys
    else if s.phase != Halted then {}
    else if s.control.Forgetting? then s.control.todo
    else s.flows.Keys
  }

  /** What each engine phase guarantees. */
  ghost predicate PhaseAgrees(g: Gen, s: State) {
    && (s.control.Forgetting? ==> s.phase == Halted)
    && (forall c :: c in s.flows && c !in Remembering(s) ==> !s.flows[c].hashValid)
    && (s.phase == Cleared ==> forall i :: 0 <= i < |s.foe| ==> StateOf(s.foe[i]) != BIND)
    && (s.phase == Running ==> SlotsAgree(g, s))
  }

  ghost predicate Inv(cfg: Config, s: State) {
    TablesAgree(s) && FlowsAgree(s) && FlowsCompiled(cfg, s) && PhaseAgrees(cfg.gen, s)
  }

  // ---- Preservation, one part at a time ----

  lemma TablesStep(cfg: Config, s: State, ev: Event)
    requires TablesAgree(s) && Enabled(cfg, s, ev)
    ensures TablesAgree(Next(cfg, s, ev))
  {
    hide Compiled, Promoted, KeyOf, StateOf, Withdrawn;
  }

  lemma FlowsStep(cfg: Config, s: State, ev: Event)
    requires TablesAgree(s) && FlowsAgree(s) && Enabled(cfg, s, ev)
    ensures FlowsAgree(Next(cfg, s, ev))
  {
    hide Compiled, Promoted, KeyOf, StateOf, Withdrawn, FlowsAgree, Fresh;
    match ev {
      case InsertCookie(_, _) => FlowsStepInsert(cfg, s, ev);
      case MarkDead(_) => FlowsStepDying(cfg, s, ev);
      case FlushTuple(_) => FlowsStepDying(cfg, s, ev);
      case Remove => FlowsStepUnlink(cfg, s, ev);
      case UnlinkTuple => FlowsStepUnlink(cfg, s, ev);
      case UnlinkCookie => FlowsStepUnlink(cfg, s, ev);
      case Check(_, _, _, _, _) => FlowsStepCheck(cfg, s, ev);
      case InsertTuple => FlowsStepLink(cfg, s, ev);
      case InsertTupleFails => FlowsStepLink(cfg, s, ev);
      case ForgetOne(_) => FlowsStepForget(cfg, s, ev);
      case _ => FlowsStepOther(cfg, s, ev);
    }
  }

  lemma FlowsStepInsert(cfg: Config, s: State, ev: Event)
    requires ev.InsertCookie? && TablesAgree(s) && FlowsAgree(s) && Enabled(cfg, s, ev)
    ensures FlowsAgree(Next(cfg, s, ev))
  {
    hide Compiled;
  }

  lemma FlowsStepDying(cfg: Config, s: State, ev: Event)
    requires ev.MarkDead? || ev.FlushTuple?
    requires TablesAgree(s) && FlowsAgree(s) && Enabled(cfg, s, ev)
    ensures FlowsAgree(Next(cfg, s, ev))
  {
    hide KeyOf, StateOf, Withdrawn, Removed, Checked, CheckKey, HwMay, Compiled, Fresh, LookupResult;
  }

  lemma FlowsStepUnlink(cfg: Config, s: State, ev: Event)
    requires ev.Remove? || ev.UnlinkTuple? || ev.UnlinkCookie?
    requires TablesAgree(s) && FlowsAgree(s) && Enabled(cfg, s, ev)
    ensures FlowsAgree(Next(cfg, s, ev))
  {
    hide KeyOf, StateOf, Withdrawn, Removed, Checked, CheckKey, HwMay, Compiled, Fresh, LookupResult;
  }

  lemma FlowsStepCheck(cfg: Config, s: State, ev: Event)
    requires ev.Check? && TablesAgree(s) && FlowsAgree(s) && Enabled(cfg, s, ev)
    ensures FlowsAgree(Next(cfg, s, ev))
  {
    hide KeyOf, StateOf, CheckKey, Checked;
    CheckKeepsFlow(cfg, s, ev);
  }

  lemma FlowsStepLink(cfg: Config, s: State, ev: Event)
    requires ev.InsertTuple? || ev.InsertTupleFails?
    requires TablesAgree(s) && FlowsAgree(s) && Enabled(cfg, s, ev)
    ensures FlowsAgree(Next(cfg, s, ev))
  {
    hide KeyOf, StateOf, Checked, CheckKey, HwMay, Removed, Compiled, LookupResult;
  }

  lemma FlowsStepForget(cfg: Config, s: State, ev: Event)
    requires ev.ForgetOne? && FlowsAgree(s) && Enabled(cfg, s, ev)
    ensures FlowsAgree(Next(cfg, s, ev))
  {
    hide KeyOf, StateOf;
  }

  lemma FlowsStepOther(cfg: Config, s: State, ev: Event)
    requires ev.HwWrite? || ev.BeginForget? || ev.EndForget? || ev.Halt? || ev.ClearAll? || ev.Enable? || ev.SetDsa?
    requires FlowsAgree(s) && Enabled(cfg, s, ev)
    ensures FlowsAgree(Next(cfg, s, ev))
  {
    hide KeyOf, StateOf, Checked, CheckKey, HwMay, Removed, Compiled, LookupResult;
  }

  /** A check changes no flow but for its association and time of use. */
  lemma CheckKeepsFlow(cfg: Config, s: State, ev: Event)
    requires ev.Check?
    ensures var t := Next(cfg, s, ev);
            && t.flows.Keys == s.flows.Keys && t.control == s.control
            && forall c :: c in s.flows ==>
                 && t.flows[c].key == s.flows[c].key && t.flows[c].dead == s.flows[c].dead
                 && (t.flows[c].hashValid && !s.flows[c].hashValid ==>
                       CheckKey(cfg.gen, s.foe, ev.slot, ev.keepalive).Some? && ev.pick == Some(c) && !s.flows[c].dead)
  {
    hide Promoted, KeyOf, StateOf, CheckKey, HwMay, Removed, Compiled;
  }

  lemma CompiledStep(cfg: Config, s: State, ev: Event)
    requires FlowsCompiled(cfg, s) && Enabled(cfg, s, ev)
    ensures FlowsCompiled(cfg, Next(cfg, s, ev))
  {
    hide Compiled, Promoted, KeyOf, StateOf, Withdrawn;
  }

  /** A hardware write never changes what a bound entry carries. */
  lemma HwKeepsBound(g: Gen, before: Foe, after: Foe)
    requires HwMay(g, before, after) && StateOf(after) == BIND
    ensures StateOf(before) == BIND && Kept(g, after) == Kept(g, before) && KeyOf(g, after) == KeyOf(g, before)
  {
    hide Kept, KeyOf, StateOf, KeptIb1, Untimed;
    TimestampBits(g, before.w0, after.w0);
    KeptOfSame(g, before, after);
    CarriedKey(g, after, before);
  }

  lemma KeptOfSame(g: Gen, a: Foe, b: Foe)
    requires a.(w0 := 0) == b.(w0 := 0) && KeptIb1(g, a.w0) == KeptIb1(g, b.w0)
    ensures Kept(g, a) == Kept(g, b)
  {
    hide KeptIb1, BelowPriority;
  }

  lemma TimestampBits(g: Gen, a: bv32, b: bv32)
    requires Untimed(g, a) == Untimed(g, b)
    ensures KeptIb1(g, a) == KeptIb1(g, b)
  {}

  lemma OwnedAfterHw(cfg: Config, s: State, ev: Event, j: nat)
    requires ev.HwWrite? && Enabled(cfg, s, ev) && SlotsAgree(cfg.gen, s)
    requires j < |Next(cfg, s, ev).foe| && StateOf(Next(cfg, s, ev).foe[j]) == BIND
    ensures Owned(cfg.gen, Next(cfg, s, ev), j)
  {
    hide KeyOf, StateOf, Kept, HwMay;
    if j == ev.i {
      HwKeepsBound(cfg.gen, s.foe[j], ev.after);
    }
    var c :| Owns(cfg.gen, s, c, j);
    assert Owns(cfg.gen, Next(cfg, s, ev), c, j);
  }

  lemma OwnedAfterPromotion(cfg: Config, s: State, ev: Event)
    requires ev.Check? && TablesAgree(s) && FlowsCompiled(cfg, s) && Enabled(cfg, s, ev)
    requires ev.slot < |Next(cfg, s, ev).foe| && Next(cfg, s, ev).foe[ev.slot] != s.foe[ev.slot]
    ensures Owned(cfg.gen, Next(cfg, s, ev), ev.slot)
  {
    hide KeyOf, StateOf, Kept, Promoted, Compiled;
    var g, s', c := cfg.gen, Next(cfg, s, ev), ev.pick.value;
    var entry := s.flows[c];
    CompiledKey(g, entry.rule, cfg.topology);
    PromotedCarries(g, entry.template, s.foe[ev.slot], ev.slot, s.dsa, ev.timestamp);
    CarriedKey(g, s'.foe[ev.slot], entry.template);
    assert Owns(g, s', c, ev.slot);
  }

  /** A refused check changes no slot and no association; an accepted promotion binds the reported slot. */
  lemma OwnedAfterCheck(cfg: Config, s: State, ev: Event, j: nat)
    requires ev.Check? && Inv(cfg, s) && Enabled(cfg, s, ev)
    requires j < |Next(cfg, s, ev).foe| && StateOf(Next(cfg, s, ev).foe[j]) == BIND
    ensures Owned(cfg.gen, Next(cfg, s, ev), j)
  {
    hide KeyOf, StateOf, Kept, Promoted, Compiled, FlowsAgree, TablesAgree;
    var g, s' := cfg.gen, Next(cfg, s, ev);
    if j == ev.slot && s'.foe[j] != s.foe[j] {
      OwnedAfterPromotion(cfg, s, ev);
    } else {
      var c :| Owns(g, s, c, j);
      assert Owns(g, s', c, j);
    }
  }

  lemma WithdrawnIsNotBound(g: Gen, e: Foe)
    ensures StateOf(Withdrawn(g, e)) != BIND
  {}

  /** Removing a flow's association clears its own slot and leaves every other owner alone. */
  lemma OwnedAfterRemove(cfg: Config, s: State, ev: Event, j: nat)
    requires ev.Remove? && Inv(cfg, s) && s.phase == Running && Enabled(cfg, s, ev)
    requires j < |Next(cfg, s, ev).foe| && StateOf(Next(cfg, s, ev).foe[j]) == BIND
    ensures Owned(cfg.gen, Next(cfg, s, ev), j)
  {
    hide KeyOf, StateOf, Kept, Withdrawn, Compiled, FlowsAgree;
    var g, s' := cfg.gen, Next(cfg, s, ev);
    var removed := s.flows[s.control.c];
    if removed.hash < |s.foe| {
      WithdrawnIsNotBound(g, s.foe[removed.hash]);
    }
    var c :| Owns(g, s, c, j);
    assert Owns(g, s', c, j);
  }

  /** The remaining steps keep the table, and each owner stays linked with its association. */
  lemma OwnedAfterOther(cfg: Config, s: State, ev: Event, j: nat)
    requires !ev.HwWrite? && !ev.Check? && !ev.Remove? && !ev.ClearAll?
    requires Inv(cfg, s) && s.phase == Running && Enabled(cfg, s, ev) && Next(cfg, s, ev).phase == Running
    requires j < |Next(cfg, s, ev).foe| && StateOf(Next(cfg, s, ev).foe[j]) == BIND
    ensures Owned(cfg.gen, Next(cfg, s, ev), j)
  {
    hide KeyOf, StateOf, Kept, Compiled, Fresh;
    var c :| Owns(cfg.gen, s, c, j);
    assert Owns(cfg.gen, Next(cfg, s, ev), c, j);
  }

  lemma SlotsStep(cfg: Config, s: State, ev: Event)
    requires Inv(cfg, s) && Enabled(cfg, s, ev) && Next(cfg, s, ev).phase == Running
    ensures SlotsAgree(cfg.gen, Next(cfg, s, ev))
  {
    hide KeyOf, StateOf, Kept, Compiled, Owned, FlowsAgree, TablesAgree, HwMay, Fresh;
    var s' := Next(cfg, s, ev);
    forall j | 0 <= j < |s'.foe| && StateOf(s'.foe[j]) == BIND ensures Owned(cfg.gen, s', j) {
      match ev {
        case HwWrite(_, _) => OwnedAfterHw(cfg, s, ev, j);
        case Check(_, _, _, _, _) => OwnedAfterCheck(cfg, s, ev, j);
        case Remove => OwnedAfterRemove(cfg, s, ev, j);
        case Enable =>
        case _ => OwnedAfterOther(cfg, s, ev, j);
      }
    }
  }

  lemma ZeroIsNotBound()
    ensures StateOf(ZERO_FOE) != BIND
  {}

  /** A cleared table stays without BIND entries: the engine never makes one, and RX checks are off. */
  lemma ClearedStep(cfg: Config, s: State, ev: Event)
    requires PhaseAgrees(cfg.gen, s) && Enabled(cfg, s, ev) && Next(cfg, s, ev).phase == Cleared
    ensures var s' := Next(cfg, s, ev); forall i :: 0 <= i < |s'.foe| ==> StateOf(s'.foe[i]) != BIND
  {
    hide KeyOf, StateOf, Compiled, SlotsAgree, Fresh;
    ZeroIsNotBound();
    forall e ensures StateOf(Withdrawn(cfg.gen, e)) != BIND { WithdrawnIsNotBound(cfg.gen, e); }
  }

  /** Associations that the control path has forgotten stay forgotten while the engine is not running. */
  lemma ForgottenStep(cfg: Config, s: State, ev: Event)
    requires PhaseAgrees(cfg.gen, s) && Enabled(cfg, s, ev)
    ensures var s' := Next(cfg, s, ev);
            && (s'.control.Forgetting? ==> s'.phase == Halted)
            && forall c :: c in s'.flows && c !in Remembering(s') ==> !s'.flows[c].hashValid
  {
    hide KeyOf, StateOf, Compiled, SlotsAgree, Promoted, Withdrawn;
  }

  lemma InvStep(cfg: Config, s: State, ev: Event)
    requires Inv(cfg, s) && Enabled(cfg, s, ev)
    ensures Inv(cfg, Next(cfg, s, ev))
  {
    hide TablesAgree, FlowsAgree, FlowsCompiled, Next, Enabled, SlotsAgree, Remembering, StateOf;
    TablesStep(cfg, s, ev);
    FlowsStep(cfg, s, ev);
    CompiledStep(cfg, s, ev);
    ForgottenStep(cfg, s, ev);
    if Next(cfg, s, ev).phase == Running {
      SlotsStep(cfg, s, ev);
    }
    if Next(cfg, s, ev).phase == Cleared {
      ClearedStep(cfg, s, ev);
    }
  }
}
