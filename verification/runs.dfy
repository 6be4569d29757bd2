/** What holds over whole runs of the flow-offload protocol. */
module Runs {
  import opened Wire
  import opened Flow
  import opened Foe
  import opened Topology
  import opened Pedit
  import opened Generation
  import opened Protocol
  import opened Paths

  /** No flows and no BIND entry: as after allocating a zeroed table, or clearing it. */
  ghost predicate Initial(s: State) {
    && s.flows == map[] && s.tuples == {} && s.control == Idle && s.phase in {Halted, Running}
    && forall i :: 0 <= i < |s.foe| ==> StateOf(s.foe[i]) != BIND
  }

  /** Any interleaving of hardware, RX and control steps from the initial state. */
  ghost predicate IsRun(cfg: Config, states: seq<State>, evs: seq<Event>) {
    && |states| == |evs| + 1
    && Initial(states[0])
    && forall k :: 0 <= k < |evs| ==> Step(cfg, states[k], evs[k], states[k + 1])
  }

  lemma InitialInv(cfg: Config, s: State)
    requires Initial(s)
    ensures Inv(cfg, s)
  {
    hide StateOf, Compiled;
  }

  lemma {:induction false} RunInv(cfg: Config, states: seq<State>, evs: seq<Event>, k: nat)
    requires IsRun(cfg, states, evs) && k < |states|
    ensures Inv(cfg, states[k])
  {
    hide Initial, Inv, Next, Enabled;
    if k == 0 {
      InitialInv(cfg, states[0]);
    } else {
      RunInv(cfg, states, evs, k - 1);
      assert Step(cfg, states[k - 1], evs[k - 1], states[k]);
      InvStep(cfg, states[k - 1], evs[k - 1]);
    }
  }

  // ---- Flows that have their tuple to themselves ----

  /** At most one linked or half-linked flow has this tuple. */
  ghost predicate Alone(s: State, key: Key) {
    forall c, d :: c in s.flows && d in s.flows && s.flows[c].key == key == s.flows[d].key ==> c == d
  }

  /** The step files a second flow for a tuple; the driver, which compares cookies, allows it. */
  ghost predicate FilesSecond(s: State, ev: Event, key: Key) {
    ev.InsertCookie? && ev.entry.key == key && exists c :: c in s.flows && s.flows[c].key == key
  }

  lemma AloneStep(cfg: Config, s: State, ev: Event, key: Key)
    requires Enabled(cfg, s, ev) && Alone(s, key) && !FilesSecond(s, ev, key)
    ensures Alone(Next(cfg, s, ev), key)
  {
    hide KeyOf, StateOf, Compiled, Promoted, Withdrawn, Fresh, CheckKey, HwMay;
  }

  /** A tuple that no replace has given to a second flow belongs to one flow, whatever other tuples do. */
  lemma {:induction false} AloneInRun(cfg: Config, states: seq<State>, evs: seq<Event>, k: nat, key: Key)
    requires IsRun(cfg, states, evs) && k < |states|
    requires forall j :: 0 <= j < k ==> !FilesSecond(states[j], evs[j], key)
    ensures Alone(states[k], key)
  {
    hide Alone, FilesSecond, Next, Enabled, StateOf;
    if k == 0 {
      NothingIsAlone(states[0], key);
    } else {
      AloneInRun(cfg, states, evs, k - 1, key);
      assert Step(cfg, states[k - 1], evs[k - 1], states[k]);
      AloneStep(cfg, states[k - 1], evs[k - 1], key);
    }
  }

  lemma NothingIsAlone(s: State, key: Key)
    requires s.flows == map[]
    ensures Alone(s, key)
  {}

  // ---- Slot and flow agreement ----

  /** In every reachable running state each BIND slot belongs to a linked flow, and no flow has two. */
  lemma EverySlotIsOwned(cfg: Config, states: seq<State>, evs: seq<Event>, k: nat)
    requires IsRun(cfg, states, evs) && k < |states| && states[k].phase == Running
    ensures var s := states[k];
            forall i :: 0 <= i < |s.foe| && StateOf(s.foe[i]) == BIND ==> exists c :: Owns(cfg.gen, s, c, i)
    ensures forall c, i, j :: Owns(cfg.gen, states[k], c, i) && Owns(cfg.gen, states[k], c, j) ==> i == j
  {
    hide KeyOf, StateOf, Kept, Compiled, Initial, Step;
    RunInv(cfg, states, evs, k);
    var s := states[k];
    forall i | 0 <= i < |s.foe| && StateOf(s.foe[i]) == BIND ensures exists c :: Owns(cfg.gen, s, c, i) {
      assert Owned(cfg.gen, s, i);
    }
  }

  /** If its tuple belongs to one flow, a BIND slot belongs to exactly that flow, and a flow whose remembered
      index merely aliases a BIND slot has a different tuple. */
  lemma SlotFlowAgreement(cfg: Config, states: seq<State>, evs: seq<Event>, k: nat, i: nat, key: Key)
    requires IsRun(cfg, states, evs) && k < |states| && states[k].phase == Running
    requires i < |states[k].foe| && IsBound(cfg.gen, states[k].foe[i], key) && Alone(states[k], key)
    ensures exists c :: Owns(cfg.gen, states[k], c, i) && forall d :: Owns(cfg.gen, states[k], d, i) ==> d == c
    ensures forall c :: c in states[k].tuples && c in states[k].flows && states[k].flows[c].key == key
                        ==> Owns(cfg.gen, states[k], c, i)
    ensures forall c, j :: Owns(cfg.gen, states[k], c, j) && states[k].flows[c].key == key ==> j == i
  {
    hide Inv, Owns, IsBound, Alone, Initial, Step;
    RunInv(cfg, states, evs, k);
    SoleOwner(cfg, states[k], i, key);
  }

  lemma SoleOwner(cfg: Config, s: State, i: nat, key: Key)
    requires Inv(cfg, s) && s.phase == Running && i < |s.foe| && IsBound(cfg.gen, s.foe[i], key) && Alone(s, key)
    ensures exists c :: Owns(cfg.gen, s, c, i) && forall d :: Owns(cfg.gen, s, d, i) ==> d == c
    ensures forall c :: c in s.tuples && c in s.flows && s.flows[c].key == key ==> Owns(cfg.gen, s, c, i)
    ensures forall c, j :: Owns(cfg.gen, s, c, j) && s.flows[c].key == key ==> j == i
  {
    hide Inv, KeyOf, StateOf, CarriesTemplate;
    BoundIsOwned(cfg, s, i);
    var c :| Owns(cfg.gen, s, c, i);
    forall d | Owns(cfg.gen, s, d, i) ensures d == c {}
    forall d | d in s.flows && s.flows[d].key == key ensures d == c {}
  }

  lemma BoundIsOwned(cfg: Config, s: State, i: nat)
    requires Inv(cfg, s) && s.phase == Running && i < |s.foe| && StateOf(s.foe[i]) == BIND
    ensures Owned(cfg.gen, s, i)
  {
    hide StateOf, Owned, TablesAgree, FlowsAgree, FlowsCompiled;
  }

  /** A remembered slot that is still this key's BIND is owned by the one flow that has the key. */
  lemma StillBoundMeansOwned(cfg: Config, s: State, c: Cookie)
    requires Inv(cfg, s) && s.phase == Running && c in s.flows && c in s.tuples && Alone(s, s.flows[c].key)
    ensures StillBound(cfg.gen, s.foe, s.flows[c]) <==> exists i :: Owns(cfg.gen, s, c, i)
  {
    hide KeyOf, StateOf, Kept, Compiled;
    if StillBound(cfg.gen, s.foe, s.flows[c]) {
      var i := s.flows[c].hash;
      assert Owned(cfg.gen, s, i);
      var d :| Owns(cfg.gen, s, d, i);
      assert d == c;
    }
  }

  /** The tuple in the slot, if it has one, belongs to at most one flow. */
  ghost predicate AloneAt(g: Gen, s: State, i: nat) {
    i < |s.foe| && KeyOf(g, s.foe[i]).Some? ==> Alone(s, KeyOf(g, s.foe[i]).value)
  }

  /** Promotion succeeds exactly for a learned slot whose tuple is that of a linked, live flow without a slot. */
  lemma PromotedExactly(cfg: Config, s: State, ev: Event)
    requires Inv(cfg, s) && ev.Check? && !ev.keepalive && Enabled(cfg, s, ev) && AloneAt(cfg.gen, s, ev.slot)
    ensures Checked(cfg.gen, s, ev.slot, false, ev.pick, ev.timestamp, ev.now).1 <==>
              && ev.slot < |s.foe| && StateOf(s.foe[ev.slot]) == UNBIND
              && exists c :: c in s.tuples && c in s.flows && !s.flows[c].dead
                             && KeyOf(cfg.gen, s.foe[ev.slot]) == Some(s.flows[c].key)
                             && !exists i :: Owns(cfg.gen, s, c, i)
  {
    hide KeyOf, StateOf, Kept, Compiled, Promoted, FlowsCompiled, PhaseAgrees, TablesAgree;
    if ev.slot < |s.foe| && StateOf(s.foe[ev.slot]) == UNBIND && KeyOf(cfg.gen, s.foe[ev.slot]).Some? {
      if ev.pick.Some? {
        var c := ev.pick.value;
        StillBoundMeansOwned(cfg, s, c);
        NoOwnerOfUnbind(cfg, s, c, ev.slot);
      }
    }
  }

  lemma NoOwnerOfUnbind(cfg: Config, s: State, c: Cookie, i: nat)
    requires i < |s.foe| && StateOf(s.foe[i]) == UNBIND
    ensures !Owns(cfg.gen, s, c, i)
  {
    hide KeyOf, Kept;
  }

  /** A keepalive is credited exactly when the reported slot's owner is alive, and to that owner only. */
  lemma KeepaliveCreditsOwner(cfg: Config, s: State, ev: Event)
    requires Inv(cfg, s) && ev.Check? && ev.keepalive && Enabled(cfg, s, ev) && AloneAt(cfg.gen, s, ev.slot)
    ensures var (s', ok) := Checked(cfg.gen, s, ev.slot, true, ev.pick, ev.timestamp, ev.now);
            && (ok <==> exists c :: Owns(cfg.gen, s, c, ev.slot) && !s.flows[c].dead)
            && (forall c :: ok && Owns(cfg.gen, s, c, ev.slot) ==>
                              s' == s.(flows := s.flows[c := s.flows[c].(lastUsed := ev.now)]))
            && (!ok ==> s' == s)
  {
    hide KeyOf, StateOf, Kept, Compiled, FlowsCompiled, TablesAgree;
    var (s', ok) := Checked(cfg.gen, s, ev.slot, true, ev.pick, ev.timestamp, ev.now);
    if ev.slot < |s.foe| && StateOf(s.foe[ev.slot]) == BIND {
      assert Owned(cfg.gen, s, ev.slot);
      var c :| Owns(cfg.gen, s, c, ev.slot);
      assert ev.pick == Some(c);
      assert s.flows[c := s.flows[c]] == s.flows;
    }
  }

  // ---- What a destroy leaves alone ----

  /** A destroy changes a slot only while that slot is the BIND of the destroyed flow's own tuple. */
  lemma DestroySparesOthers(cfg: Config, s: State, ev: Event, i: nat)
    requires ev.MarkDead? || ev.Remove? || ev.UnlinkTuple? || ev.UnlinkCookie?
    requires Inv(cfg, s) && Enabled(cfg, s, ev) && i < |s.foe|
    requires i < |Next(cfg, s, ev).foe| && Next(cfg, s, ev).foe[i] != s.foe[i]
    ensures s.control.Dying? && s.control.c in s.flows && IsBound(cfg.gen, s.foe[i], s.flows[s.control.c].key)
  {
    hide KeyOf, StateOf, Compiled;
  }

  // ---- Table coherence ----

  /** At every step the tuple table is a subset of the cookie table; between operations they are equal. */
  lemma TableCoherence(cfg: Config, states: seq<State>, evs: seq<Event>, k: nat)
    requires IsRun(cfg, states, evs) && k < |states|
    ensures states[k].tuples <= states[k].flows.Keys
    ensures states[k].control == Idle ==> states[k].tuples == states[k].flows.Keys
    ensures forall c :: c in states[k].flows && c !in states[k].tuples ==>
              states[k].control == Inserting(c) || states[k].control == TupleGone(c)
  {
    hide Initial, Step, FlowsAgree, FlowsCompiled, PhaseAgrees;
    RunInv(cfg, states, evs, k);
  }

  // ---- The time of use ----

  /** When the flow was last promoted or credited with a keepalive since it was linked; zero if never. */
  ghost function LastHit(cfg: Config, states: seq<State>, evs: seq<Event>, k: nat, c: Cookie): nat
    requires k <= |evs| && |states| == |evs| + 1
  {
    if k == 0 then 0
    else
      var s, ev := states[k - 1], evs[k - 1];
      if ev.InsertCookie? && ev.c == c then 0
      else if ev.Check? && ev.pick == Some(c) && Checked(cfg.gen, s, ev.slot, ev.keepalive, ev.pick, ev.timestamp, ev.now).1 then ev.now
      else LastHit(cfg, states, evs, k - 1, c)
  }

  /** What the statistics report is the time of the flow's last accepted promotion or credited keepalive. */
  lemma {:induction false} LastUsedIsLastHit(cfg: Config, states: seq<State>, evs: seq<Event>, k: nat, c: Cookie)
    requires IsRun(cfg, states, evs) && k < |states| && c in states[k].flows
    ensures states[k].flows[c].lastUsed == LastHit(cfg, states, evs, k, c)
  {
    hide StateOf, Step, Checked;
    if k > 0 {
      assert Step(cfg, states[k - 1], evs[k - 1], states[k]);
      LastUsedStep(cfg, states[k - 1], evs[k - 1], c, states[k]);
      if c in states[k - 1].flows {
        LastUsedIsLastHit(cfg, states, evs, k - 1, c);
      }
    }
  }

  lemma LastUsedStep(cfg: Config, s: State, ev: Event, c: Cookie, t: State)
    requires Step(cfg, s, ev, t) && c in t.flows
    ensures if ev.InsertCookie? && ev.c == c then t.flows[c].lastUsed == 0
            else
              c in s.flows && t.flows[c].lastUsed
              == if ev.Check? && ev.pick == Some(c) && Checked(cfg.gen, s, ev.slot, ev.keepalive, ev.pick, ev.timestamp, ev.now).1
                 then ev.now else s.flows[c].lastUsed
  {
    hide StateOf, KeyOf, Promoted, Compiled, Withdrawn, HwMay;
  }

  // ---- End to end ----

  /** The slot does, to every packet that hits it, what the actions of a linked flow's rule ask for. */
  ghost predicate RewritesAs(cfg: Config, s: State, i: nat, c: Cookie)
    requires i < |s.foe|
  {
    && c in s.tuples && c in s.flows && KeyOf(cfg.gen, s.foe[i]) == Some(s.flows[c].key)
    && ((forall p :: Hits(p, s.flows[c].key) ==>
           HwRewrite(cfg.gen, s.foe[i], p) == Apply(s.flows[c].rule.actions, p))
        <==> Covered(s.flows[c].rule.actions) && Settled(s.flows[c].rule.actions))
  }

  lemma OwnerRewrites(cfg: Config, s: State, c: Cookie, i: nat)
    requires Inv(cfg, s) && Owns(cfg.gen, s, c, i)
    ensures RewritesAs(cfg, s, i, c)
  {
    hide KeyOf, StateOf, Compiled, HwRewrite, CarriesTemplate, TablesAgree, FlowsAgree, PhaseAgrees, Covered, Settled, Hits;
    var entry := s.flows[c];
    forall p: Packet | p.Valid() ensures HwRewrite(cfg.gen, s.foe[i], p) == HwRewrite(cfg.gen, entry.template, p) {
      CarriedRewrite(cfg.gen, s.foe[i], entry.template, p);
    }
    CarriedKey(cfg.gen, s.foe[i], entry.template);
    forall p | Hits(p, entry.key) ensures p.Valid() { HitsAreValid(p, entry.key); }
    CompilePreservesMeaning(cfg.gen, entry.rule, cfg.topology);
  }

  lemma HitsAreValid(p: Packet, key: Key)
    requires Hits(p, key)
    ensures p.Valid()
  {}

  /** End to end: in every reachable running state, the hardware rewrite of every packet hitting a BIND slot
      is the rule's own edits, for the rule of a flow that is linked in both tables. */
  lemma EndToEnd(cfg: Config, states: seq<State>, evs: seq<Event>, k: nat, i: nat)
    requires IsRun(cfg, states, evs) && k < |states| && states[k].phase == Running
    requires i < |states[k].foe| && StateOf(states[k].foe[i]) == BIND
    ensures exists c :: RewritesAs(cfg, states[k], i, c)
  {
    hide Step, Initial, RewritesAs, StateOf;
    var s := states[k];
    RunInv(cfg, states, evs, k);
    assert Owned(cfg.gen, s, i);
    var c :| Owns(cfg.gen, s, c, i);
    OwnerRewrites(cfg, s, c, i);
  }
}
