/** Sequences of protocol steps, and what they lead to. */
module Paths {
  import opened Wire
  import opened Flow
  import opened Foe
  import opened Generation
  import opened Protocol

  ghost predicate Step(cfg: Config, s: State, ev: Event, t: State) { Enabled(cfg, s, ev) && t == Next(cfg, s, ev) }

  /** Performing these events one after another, each of them enabled, leads from s to t. */
  ghost predicate Performs(cfg: Config, s: State, evs: seq<Event>, t: State)
    decreases |evs|, 0
  {
    if evs == [] then t == s
    else exists m :: PerformsVia(cfg, s, evs, m, t)
  }

  ghost predicate PerformsVia(cfg: Config, s: State, evs: seq<Event>, m: State, t: State)
    requires evs != []
    decreases |evs| - 1, 1
  {
    Performs(cfg, s, evs[..|evs| - 1], m) && Step(cfg, m, evs[|evs| - 1], t)
  }

  lemma PerformsNone(cfg: Config, s: State)
    ensures Performs(cfg, s, [], s)
  {}

  lemma PerformsNext(cfg: Config, s: State, evs: seq<Event>, m: State, ev: Event, t: State)
    requires Performs(cfg, s, evs, m) && Step(cfg, m, ev, t)
    ensures Performs(cfg, s, evs + [ev], t)
  {
    hide Step;
    assert (evs + [ev])[..|evs|] == evs;
    assert PerformsVia(cfg, s, evs + [ev], m, t);
  }

  lemma PerformsTwo(cfg: Config, s0: State, s1: State, s2: State, a: Event, b: Event)
    requires Step(cfg, s0, a, s1) && Step(cfg, s1, b, s2)
    ensures Performs(cfg, s0, [a, b], s2)
  {
    hide Step;
    PerformsNext(cfg, s0, [], s0, a, s1);
    PerformsNext(cfg, s0, [] + [a], s1, b, s2);
    assert [] + [a] + [b] == [a, b];
  }

  lemma PerformsFour(cfg: Config, s0: State, s1: State, s2: State, s3: State, s4: State, a: Event, b: Event, c: Event, d: Event)
    requires Step(cfg, s0, a, s1) && Step(cfg, s1, b, s2) && Step(cfg, s2, c, s3) && Step(cfg, s3, d, s4)
    ensures Performs(cfg, s0, [a, b, c, d], s4)
  {
    hide Step;
    PerformsNext(cfg, s0, [], s0, a, s1);
    PerformsNext(cfg, s0, [] + [a], s1, b, s2);
    PerformsNext(cfg, s0, [] + [a] + [b], s2, c, s3);
    PerformsNext(cfg, s0, [] + [a] + [b] + [c], s3, d, s4);
    assert [] + [a] + [b] + [c] + [d] == [a, b, c, d];
  }

  /** A sequence of enabled steps that links no flow leads from s to t. */
  ghost predicate Quietly(cfg: Config, s: State, t: State) {
    exists evs: seq<Event> :: Performs(cfg, s, evs, t) && forall k :: 0 <= k < |evs| ==> !evs[k].InsertCookie?
  }

  lemma QuietlyNone(cfg: Config, s: State)
    ensures Quietly(cfg, s, s)
  {
    PerformsNone(cfg, s);
  }

  lemma QuietlyNext(cfg: Config, s: State, m: State, ev: Event, t: State)
    requires Quietly(cfg, s, m) && Step(cfg, m, ev, t) && !ev.InsertCookie?
    ensures Quietly(cfg, s, t)
  {
    hide Step, Performs;
    var evs: seq<Event> :| Performs(cfg, s, evs, m) && forall k :: 0 <= k < |evs| ==> !evs[k].InsertCookie?;
    PerformsNext(cfg, s, evs, m, ev, t);
    assert forall k :: 0 <= k < |evs + [ev]| ==> !(evs + [ev])[k].InsertCookie?;
  }

  lemma {:induction false} PerformsAll(cfg: Config, s: State, evs: seq<Event>, m: State, more: seq<Event>, t: State)
    requires Performs(cfg, s, evs, m) && Performs(cfg, m, more, t)
    ensures Performs(cfg, s, evs + more, t)
    decreases |more|
  {
    hide Step;
    if more == [] {
      assert evs + more == evs;
    } else {
      var last := |more| - 1;
      var via :| PerformsVia(cfg, m, more, via, t);
      PerformsAll(cfg, s, evs, m, more[..last], via);
      PerformsNext(cfg, s, evs + more[..last], via, more[last], t);
      assert evs + more[..last] + [more[last]] == evs + more;
    }
  }

  lemma QuietlyAll(cfg: Config, s: State, m: State, t: State)
    requires Quietly(cfg, s, m) && Quietly(cfg, m, t)
    ensures Quietly(cfg, s, t)
  {
    hide Performs;
    var evs: seq<Event> :| Performs(cfg, s, evs, m) && forall k :: 0 <= k < |evs| ==> !evs[k].InsertCookie?;
    var more: seq<Event> :| Performs(cfg, m, more, t) && forall k :: 0 <= k < |more| ==> !more[k].InsertCookie?;
    PerformsAll(cfg, s, evs, m, more, t);
  }

  /** Any sequence of steps keeps the invariant of the protocol. */
  lemma {:induction false} PerformsKeepsInv(cfg: Config, s: State, evs: seq<Event>, t: State)
    requires Inv(cfg, s) && Performs(cfg, s, evs, t)
    ensures Inv(cfg, t)
    decreases |evs|
  {
    hide Inv, Next, Enabled;
    if evs != [] {
      var last := |evs| - 1;
      var m :| PerformsVia(cfg, s, evs, m, t);
      PerformsKeepsInv(cfg, s, evs[..last], m);
      InvStep(cfg, m, evs[last]);
    }
  }

  // ---- Forgetting associations ----

  /** The state with every association forgotten but those of `but`. */
  ghost function Forgot(s: State, but: set<Cookie>): State {
    s.(flows := map c | c in s.flows :: s.flows[c].(hashValid := s.flows[c].hashValid && c in but))
  }

  ghost function Walking(s: State, todo: set<Cookie>): State { Forgot(s, todo).(control := Forgetting(todo)) }

  lemma ForgotStart(cfg: Config, s: State, t: State)
    requires Step(cfg, s, BeginForget, t)
    ensures t == Walking(s, s.flows.Keys)
  {
    assert Forgot(s, s.flows.Keys).flows == s.flows;
  }

  lemma ForgotStep(cfg: Config, s: State, todo: set<Cookie>, c: Cookie, t: State)
    requires todo <= s.flows.Keys && Step(cfg, Walking(s, todo), Event.ForgetOne(c), t)
    ensures t == Walking(s, todo - {c})
  {
    assert t.flows == Forgot(s, todo - {c}).flows;
  }

  lemma ForgotEnd(cfg: Config, s: State, t: State)
    requires s.control == Idle && Step(cfg, Walking(s, {}), EndForget, t)
    ensures t == Forgot(s, {}).(phase := Forgotten)
  {}

  lemma ForgotFlows(s: State)
    ensures Forgot(s, {}).flows.Keys == s.flows.Keys
    ensures forall c :: c in s.flows ==> Forgot(s, {}).flows[c] == s.flows[c].(hashValid := false)
  {}

  // ---- What hardware learns ----

  /** An entry as the engine learns it for a flow: unbound, with the flow's tuple. */
  function Learned(e: Foe): Foe { e.(w0 := (e.w0 & !IB1_STATE) | UNBIND) }

  lemma LearnedBits(g: Gen, ib1: bv32)
    ensures KeptIb1(g, (ib1 & !IB1_STATE) | UNBIND) == KeptIb1(g, ib1) && StateBits((ib1 & !IB1_STATE) | UNBIND) == UNBIND
  {}

  lemma LearnedIsUnbind(g: Gen, e: Foe)
    ensures StateOf(Learned(e)) == UNBIND && KeyOf(g, Learned(e)) == KeyOf(g, e)
  {
    hide KeyOf, KeptIb1, StateBits, BelowPriority;
    LearnedBits(g, e.w0);
    CarriedKey(g, Learned(e), e);
  }
}
