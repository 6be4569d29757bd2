/** When a destroyed flow's tuple is gone for good. */
module Withdrawal {
  import opened Wire
  import opened Flow
  import opened Foe
  import opened Generation
  import opened Protocol
  import opened Paths
  import opened Runs

  /** The only flow in the tuple table that may still have this key is one whose association is removed. */
  ghost predicate Gone(s: State, key: Key) {
    forall c :: c in s.tuples && c in s.flows && s.flows[c].key == key ==> s.control == Unbound(c)
  }

  /** The step links a flow with this key into the tuple table. */
  predicate Publishes(s: State, ev: Event, key: Key) {
    ev.InsertTuple? && s.control.Inserting? && s.control.c in s.flows && s.flows[s.control.c].key == key
  }

  lemma GoneMeansUnbound(cfg: Config, s: State, key: Key)
    requires Inv(cfg, s) && s.phase == Running && Gone(s, key)
    ensures forall i :: 0 <= i < |s.foe| ==> !IsBound(cfg.gen, s.foe[i], key)
  {
    hide KeyOf, StateOf, Kept, Compiled;
    forall i | 0 <= i < |s.foe| ensures !IsBound(cfg.gen, s.foe[i], key) {
      if StateOf(s.foe[i]) == BIND {
        assert Owned(cfg.gen, s, i);
        var c :| Owns(cfg.gen, s, c, i);
        assert s.flows[c].key != key;
      }
    }
  }

  lemma GoneStep(cfg: Config, s: State, ev: Event, key: Key)
    requires Inv(cfg, s) && Enabled(cfg, s, ev) && Gone(s, key) && !Publishes(s, ev, key)
    ensures Gone(Next(cfg, s, ev), key)
  {
    hide KeyOf, StateOf, Kept, Compiled, Promoted, Withdrawn, PhaseAgrees, Fresh;
  }

  lemma {:induction false} GoneLasts(cfg: Config, states: seq<State>, evs: seq<Event>, key: Key, k: nat, m: nat)
    requires IsRun(cfg, states, evs) && k <= m < |states| && Gone(states[k], key)
    requires forall j :: k <= j < m ==> !Publishes(states[j], evs[j], key)
    ensures Gone(states[m], key)
  {
    hide Initial, Gone, Inv, Next, Enabled, Publishes;
    if k < m {
      GoneLasts(cfg, states, evs, key, k, m - 1);
      RunInv(cfg, states, evs, m - 1);
      assert Step(cfg, states[m - 1], evs[m - 1], states[m]);
      GoneStep(cfg, states[m - 1], evs[m - 1], key);
    }
  }

  /** Some slot is a BIND for this key. */
  ghost predicate Bound(g: Gen, s: State, key: Key) { exists i :: 0 <= i < |s.foe| && IsBound(g, s.foe[i], key) }

  /** No flow but c, linked or not, has c's key. */
  ghost predicate NoOther(s: State, c: Cookie, key: Key) {
    forall d :: d in s.flows && d != c ==> s.flows[d].key != key
  }

  /** The condition is about the flow table at the moment of removal: does another flow have the tuple? */
  lemma RemoveMakesGone(cfg: Config, s: State, c: Cookie, key: Key)
    requires Inv(cfg, s) && s.control == Dying(c) && c in s.flows && s.flows[c].key == key
    ensures Enabled(cfg, s, Remove) && Inv(cfg, Next(cfg, s, Remove))
    ensures Gone(Next(cfg, s, Remove), key) <==> NoOther(s, c, key)
  {
    hide KeyOf, StateOf, Compiled, Withdrawn, FlowsCompiled, PhaseAgrees, Removed;
    InvStep(cfg, s, Remove);
    var t := Next(cfg, s, Remove);
    if !NoOther(s, c, key) {
      var d :| d in s.flows && d != c && s.flows[d].key == key;
      assert d in t.tuples && d in t.flows && t.flows[d].key == key;
    }
  }

  /** Withdrawal is final: once a destroy has removed the association of the only flow with a tuple, and until a
      later replace publishes the tuple again, no running state has a BIND slot with it, however RX checks
      interleave and whatever other flows share. */
  lemma WithdrawalIsFinal(cfg: Config, states: seq<State>, evs: seq<Event>, k: nat, m: nat, c: Cookie, key: Key)
    requires IsRun(cfg, states, evs) && k < m < |states|
    requires evs[k] == Remove && states[k].control == Dying(c) && c in states[k].flows && states[k].flows[c].key == key
    requires NoOther(states[k], c, key)
    requires forall j :: k < j < m ==> !Publishes(states[j], evs[j], key)
    ensures states[m].phase == Running ==> !Bound(cfg.gen, states[m], key)
  {
    hide Inv, Next, Enabled, Initial, IsBound, Gone, NoOther, Publishes;
    assert Step(cfg, states[k], evs[k], states[k + 1]);
    RunInv(cfg, states, evs, k);
    RemoveMakesGone(cfg, states[k], c, key);
    GoneLasts(cfg, states, evs, key, k + 1, m);
    RunInv(cfg, states, evs, m);
    if states[m].phase == Running {
      GoneMeansUnbound(cfg, states[m], key);
    }
  }

  // ---- Exactly then ----

  /** Enabled steps, none of which publishes the key, lead from s to t. */
  ghost predicate Unpublished(cfg: Config, key: Key, s: State, evs: seq<Event>, t: State)
    decreases |evs|, 0
  {
    if evs == [] then t == s else exists m :: UnpublishedVia(cfg, key, s, evs, m, t)
  }

  ghost predicate UnpublishedVia(cfg: Config, key: Key, s: State, evs: seq<Event>, m: State, t: State)
    requires evs != []
    decreases |evs| - 1, 1
  {
    var last := |evs| - 1;
    Unpublished(cfg, key, s, evs[..last], m) && Step(cfg, m, evs[last], t) && !Publishes(m, evs[last], key)
  }

  ghost predicate Reaches(cfg: Config, key: Key, s: State, t: State) { exists evs: seq<Event> :: Unpublished(cfg, key, s, evs, t) }

  lemma ReachesSelf(cfg: Config, key: Key, s: State)
    ensures Reaches(cfg, key, s, s)
  {
    assert Unpublished(cfg, key, s, [], s);
  }

  lemma ReachesNext(cfg: Config, key: Key, s: State, m: State, ev: Event, t: State)
    requires Reaches(cfg, key, s, m) && Step(cfg, m, ev, t) && !Publishes(m, ev, key)
    ensures Reaches(cfg, key, s, t)
  {
    hide Step, Publishes;
    var evs: seq<Event> :| Unpublished(cfg, key, s, evs, m);
    var more := evs + [ev];
    assert more[..|evs|] == evs && more[|evs|] == ev;
    assert UnpublishedVia(cfg, key, s, more, m, t);
    assert Unpublished(cfg, key, s, more, t);
  }

  lemma {:induction false} UnpublishedKeepsGone(cfg: Config, key: Key, s: State, evs: seq<Event>, t: State)
    requires Inv(cfg, s) && Gone(s, key) && Unpublished(cfg, key, s, evs, t)
    ensures Inv(cfg, t) && Gone(t, key)
    decreases |evs|
  {
    hide Inv, Gone, Publishes, Next, Enabled;
    if evs != [] {
      var last := |evs| - 1;
      var m :| UnpublishedVia(cfg, key, s, evs, m, t);
      UnpublishedKeepsGone(cfg, key, s, evs[..last], m);
      InvStep(cfg, m, evs[last]);
      GoneStep(cfg, m, evs[last], key);
    }
  }

  /** A flow that the RX path may promote for this key. */
  ghost predicate Linked(s: State, d: Cookie, key: Key) {
    d in s.tuples && d in s.flows && !s.flows[d].dead && s.flows[d].key == key
  }

  /** While the engine runs, a linked flow's tuple is bound already, or bound after the engine has learned it once
      and the RX path has checked it once. */
  lemma LinkedRebinds(cfg: Config, s: State, d: Cookie, key: Key)
    requires Inv(cfg, s) && s.phase == Running && s.foe != [] && Linked(s, d, key)
    ensures exists t :: Reaches(cfg, key, s, t) && t.phase == Running && Bound(cfg.gen, t, key)
  {
    hide Inv, Step, Publishes, Reaches, IsBound, StillBound, Learned, Next;
    ReachesSelf(cfg, key, s);
    if StillBound(cfg.gen, s.foe, s.flows[d]) {
      StillBoundIsBound(cfg, s, d, key);
    } else {
      var u, ev, check := Learned(s.flows[d].template), HwWrite(0, Learned(s.flows[d].template)), Check(0, false, Some(d), 0, 0);
      var m := Next(cfg, s, ev);
      var t := Next(cfg, m, check);
      LearnsThenBinds(cfg, s, d, key, m, t);
      ReachesNext(cfg, key, s, s, ev, m);
      ReachesNext(cfg, key, s, m, check, t);
    }
  }

  lemma StillBoundIsBound(cfg: Config, s: State, d: Cookie, key: Key)
    requires Linked(s, d, key) && StillBound(cfg.gen, s.foe, s.flows[d])
    ensures Bound(cfg.gen, s, key)
  {
    hide IsBound;
    assert IsBound(cfg.gen, s.foe[s.flows[d].hash], key);
  }

  lemma LearnsThenBinds(cfg: Config, s: State, d: Cookie, key: Key, m: State, t: State)
    requires Inv(cfg, s) && s.phase == Running && s.foe != [] && Linked(s, d, key)
    requires !StillBound(cfg.gen, s.foe, s.flows[d])
    requires m == Next(cfg, s, HwWrite(0, Learned(s.flows[d].template))) && t == Next(cfg, m, Check(0, false, Some(d), 0, 0))
    ensures Step(cfg, s, HwWrite(0, Learned(s.flows[d].template)), m) && Step(cfg, m, Check(0, false, Some(d), 0, 0), t)
    ensures !Publishes(s, HwWrite(0, Learned(s.flows[d].template)), key) && !Publishes(m, Check(0, false, Some(d), 0, 0), key)
    ensures t.phase == Running && Bound(cfg.gen, t, key)
  {
    hide KeyOf, StateOf, Learned, Promoted, Compiled, TablesAgree, FlowsAgree, PhaseAgrees;
    var g, e := cfg.gen, s.flows[d];
    CompiledKey(g, e.rule, cfg.topology);
    LearnedIsUnbind(g, e.template);
    PromotedIsBound(g, e.template, Learned(e.template), 0, s.dsa, 0, key);
    assert IsBound(g, t.foe[0], key);
  }

  lemma PromotedIsBound(g: Gen, template: Foe, hw: Foe, slot: nat, dsa: bool, timestamp: bv32, key: Key)
    requires KeyOf(g, hw) == Some(key) && KeyOf(g, template) == Some(key)
    ensures IsBound(g, Promoted(g, template, hw, slot, dsa, timestamp), key)
  {
    hide KeyOf, StateOf, Promoted, CarriesTemplate;
    PromotedCarries(g, template, hw, slot, dsa, timestamp);
    CarriedKey(g, Promoted(g, template, hw, slot, dsa, timestamp), template);
  }

  // ---- From any state, the engine can be running again ----

  predicate IsRestart(ev: Event) {
    ev.UnlinkTuple? || ev.UnlinkCookie? || ev.Halt? || ev.BeginForget? || ev.ForgetOne? || ev.EndForget? || ev.ClearAll? || ev.Enable?
  }

  /** Another flow's end, and stopping and starting the engine, leave a flow linked. */
  lemma RestartKeepsLinked(cfg: Config, s: State, ev: Event, d: Cookie, key: Key, t: State)
    requires Linked(s, d, key) && IsRestart(ev) && Step(cfg, s, ev, t)
    requires s.control != Unbound(d) && s.control != TupleGone(d)
    ensures Linked(t, d, key) && |t.foe| == |s.foe| && !Publishes(s, ev, key)
  {
    hide KeyOf, StateOf;
  }

  /** A state that s reaches, in which d is still linked. */
  ghost predicate Gets(cfg: Config, key: Key, s: State, d: Cookie, t: State) {
    Inv(cfg, t) && Reaches(cfg, key, s, t) && Linked(t, d, key) && |t.foe| == |s.foe|
  }

  lemma GetsNext(cfg: Config, key: Key, s: State, d: Cookie, m: State, ev: Event, t: State)
    requires Gets(cfg, key, s, d, m) && IsRestart(ev) && Enabled(cfg, m, ev) && t == Next(cfg, m, ev)
    requires m.control != Unbound(d) && m.control != TupleGone(d)
    ensures Gets(cfg, key, s, d, t)
  {
    hide Inv, Next, Enabled, Publishes, Linked, Reaches;
    RestartKeepsLinked(cfg, m, ev, d, key, t);
    ReachesNext(cfg, key, s, m, ev, t);
    InvStep(cfg, m, ev);
  }

  /** The control path is walking the flows of m, and d will stay linked. */
  ghost predicate Walks(cfg: Config, key: Key, s: State, d: Cookie, m: State, todo: set<Cookie>) {
    Gets(cfg, key, s, d, m) && m.control == Forgetting(todo) && m.phase == Halted && todo <= m.flows.Keys
  }

  lemma WalkStep(cfg: Config, key: Key, s: State, d: Cookie, m: State, todo: set<Cookie>, c: Cookie)
    requires Walks(cfg, key, s, d, m, todo) && c in todo
    ensures Walks(cfg, key, s, d, Next(cfg, m, Event.ForgetOne(c)), todo - {c})
  {
    hide Gets;
    GetsNext(cfg, key, s, d, m, Event.ForgetOne(c), Next(cfg, m, Event.ForgetOne(c)));
  }

  lemma {:induction false} WalkEnds(cfg: Config, key: Key, s: State, d: Cookie, m: State, todo: set<Cookie>)
    requires Walks(cfg, key, s, d, m, todo)
    ensures exists t :: Walks(cfg, key, s, d, t, {})
    decreases |todo|
  {
    hide Walks, Next;
    if todo != {} {
      var c :| c in todo;
      WalkStep(cfg, key, s, d, m, todo, c);
      WalkEnds(cfg, key, s, d, Next(cfg, m, Event.ForgetOne(c)), todo - {c});
    }
  }

  /** With nobody at the control lock: halt, forget, clear, enable. */
  lemma Restarts(cfg: Config, key: Key, s: State, d: Cookie, m: State)
    requires Gets(cfg, key, s, d, m) && m.control == Idle
    ensures exists t :: Gets(cfg, key, s, d, t) && t.phase == Running
  {
    hide Gets, KeyOf, StateOf, Checked, Removed, CheckKey, HwMay, LookupResult, Fresh;
    var m1 := Next(cfg, m, Halt);
    GetsNext(cfg, key, s, d, m, Halt, m1);
    var m2 := Next(cfg, m1, BeginForget);
    GetsNext(cfg, key, s, d, m1, BeginForget, m2);
    WalkEnds(cfg, key, s, d, m2, m2.flows.Keys);
    var m3 :| Walks(cfg, key, s, d, m3, {});
    var m4 := Next(cfg, m3, EndForget);
    GetsNext(cfg, key, s, d, m3, EndForget, m4);
    var m5 := Next(cfg, m4, ClearAll);
    GetsNext(cfg, key, s, d, m4, ClearAll, m5);
    GetsNext(cfg, key, s, d, m5, Enable, Next(cfg, m5, Enable));
  }

  /** After the removal, the destroy ends, and another flow with the tuple can be bound again. */
  lemma OtherRebinds(cfg: Config, s: State, c: Cookie, d: Cookie, key: Key)
    requires Inv(cfg, s) && s.control == Unbound(c) && s.foe != [] && Linked(s, d, key) && d != c
    ensures exists t :: Reaches(cfg, key, s, t) && t.phase == Running && Bound(cfg.gen, t, key)
  {
    hide Inv, Linked, Bound, Reaches;
    if s.phase == Running {
      LinkedRebinds(cfg, s, d, key);
    } else {
      ReachesSelf(cfg, key, s);
      assert Gets(cfg, key, s, d, s);
      DestroyEnds(cfg, s, c, d, key);
      var m :| Gets(cfg, key, s, d, m) && m.control == Idle;
      Restarts(cfg, key, s, d, m);
      var r :| Gets(cfg, key, s, d, r) && r.phase == Running;
      LinkedRebinds(cfg, r, d, key);
      var t :| Reaches(cfg, key, r, t) && t.phase == Running && Bound(cfg.gen, t, key);
      ReachesAll(cfg, key, s, r, t);
    }
  }

  lemma DestroyEnds(cfg: Config, s: State, c: Cookie, d: Cookie, key: Key)
    requires Gets(cfg, key, s, d, s) && s.control == Unbound(c) && d != c
    ensures exists m :: Gets(cfg, key, s, d, m) && m.control == Idle
  {
    hide Gets;
    var m := Next(cfg, s, Event.UnlinkTuple);
    GetsNext(cfg, key, s, d, s, Event.UnlinkTuple, m);
    GetsNext(cfg, key, s, d, m, Event.UnlinkCookie, Next(cfg, m, Event.UnlinkCookie));
  }

  lemma {:induction false} UnpublishedAll(cfg: Config, key: Key, s: State, m: State, evs: seq<Event>, t: State)
    requires Reaches(cfg, key, s, m) && Unpublished(cfg, key, m, evs, t)
    ensures Reaches(cfg, key, s, t)
    decreases |evs|
  {
    hide Reaches, Step, Publishes;
    if evs != [] {
      var last := |evs| - 1;
      var via :| UnpublishedVia(cfg, key, m, evs, via, t);
      UnpublishedAll(cfg, key, s, m, evs[..last], via);
      ReachesNext(cfg, key, s, via, evs[last], t);
    }
  }

  lemma ReachesAll(cfg: Config, key: Key, s: State, m: State, t: State)
    requires Reaches(cfg, key, s, m) && Reaches(cfg, key, m, t)
    ensures Reaches(cfg, key, s, t)
  {
    hide Unpublished;
    var evs: seq<Event> :| Unpublished(cfg, key, m, evs, t);
    UnpublishedAll(cfg, key, s, m, evs, t);
  }

  /** Withdrawal, exactly: after a removal no running state before the tuple's next publication has it bound, if
      and only if no other flow had the tuple at the removal. */
  lemma WithdrawalExactly(cfg: Config, s: State, c: Cookie, key: Key)
    requires Inv(cfg, s) && s.control == Dying(c) && c in s.flows && s.flows[c].key == key && s.foe != []
    ensures (forall t :: Reaches(cfg, key, Next(cfg, s, Remove), t) && t.phase == Running ==> !Bound(cfg.gen, t, key))
            <==> NoOther(s, c, key)
  {
    hide Inv, Bound, Reaches, Next, Enabled;
    var after := Next(cfg, s, Remove);
    RemoveMakesGone(cfg, s, c, key);
    if NoOther(s, c, key) {
      forall t | Reaches(cfg, key, after, t) && t.phase == Running ensures !Bound(cfg.gen, t, key) {
        ReachedIsUnbound(cfg, after, t, key);
      }
    } else {
      var d :| d in s.flows && d != c && s.flows[d].key == key;
      OtherStaysLinked(cfg, s, c, d, key);
      OtherRebinds(cfg, after, c, d, key);
    }
  }

  lemma ReachedIsUnbound(cfg: Config, s: State, t: State, key: Key)
    requires Inv(cfg, s) && Gone(s, key) && Reaches(cfg, key, s, t) && t.phase == Running
    ensures !Bound(cfg.gen, t, key)
  {
    hide Inv, Gone, IsBound, Unpublished;
    var evs: seq<Event> :| Unpublished(cfg, key, s, evs, t);
    UnpublishedKeepsGone(cfg, key, s, evs, t);
    GoneMeansUnbound(cfg, t, key);
  }

  lemma OtherStaysLinked(cfg: Config, s: State, c: Cookie, d: Cookie, key: Key)
    requires Inv(cfg, s) && s.control == Dying(c) && c in s.flows && s.foe != []
    requires d in s.flows && d != c && s.flows[d].key == key
    ensures var t := Next(cfg, s, Remove); Linked(t, d, key) && t.control == Unbound(c) && t.foe != []
  {
    hide KeyOf, StateOf, Compiled, Withdrawn, FlowsCompiled, PhaseAgrees;
  }
}
