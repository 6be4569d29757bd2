/** What happens when two cookies share a tuple, which the driver, comparing cookies only, allows. */
module Sharing {
  import opened Wire
  import opened Flow
  import opened Foe
  import opened Topology
  import opened Generation
  import opened Protocol
  import opened Paths
  import opened Runs
  import opened Engine
  import opened Withdrawal

  /** Two linked, unpromoted flows for one tuple; the engine has learned the tuple in slots 0 and 1. */
  function Twice(e: FlowEntry): State {
    var u := Learned(e.template);
    State([u, u], map[0 := e, 1 := e], {0, 1}, Idle, Running, false)
  }

  /** The same before any flow is linked. */
  function Blank(e: FlowEntry): State {
    var u := Learned(e.template);
    State([u, u], map[], {}, Idle, Running, false)
  }

  function LinkEvents(e: FlowEntry): seq<Event> {
    [InsertCookie(0, e), InsertTuple, InsertCookie(1, e), InsertTuple]
  }

  lemma LinksTwice(cfg: Config, e: FlowEntry)
    requires Fresh(cfg, e)
    ensures Initial(Blank(e)) && Performs(cfg, Blank(e), LinkEvents(e), Twice(e))
  {
    hide Compiled, KeyOf, StateOf, Fresh, Learned;
    LearnedIsUnbind(cfg.gen, e.template);
    var s1 := Next(cfg, Blank(e), InsertCookie(0, e));
    var s2 := Next(cfg, s1, InsertTuple);
    var s3 := Next(cfg, s2, InsertCookie(1, e));
    assert s2.tuples == {0} && s3.flows == map[0 := e, 1 := e];
    assert Next(cfg, s3, InsertTuple).tuples == {0, 1};
    PerformsFour(cfg, Blank(e), s1, s2, s3, Twice(e), InsertCookie(0, e), InsertTuple, InsertCookie(1, e), InsertTuple);
  }

  function PromoteEvents(timestamp: bv32, now: nat): seq<Event> {
    [Check(0, false, Some(0), timestamp, now), Check(1, false, Some(1), timestamp, now), Event.MarkDead(0), Event.Remove]
  }

  function Associated(e: FlowEntry, slot: nat, now: nat): FlowEntry { e.(hash := slot, hashValid := true, lastUsed := now) }

  /** A learned slot is promoted for a linked flow without an association. */
  lemma CheckPromotes(cfg: Config, s: State, c: Cookie, i: nat, timestamp: bv32, now: nat)
    requires s.phase == Running && c in s.tuples && c in s.flows && i < |s.foe|
    requires !s.flows[c].dead && !s.flows[c].hashValid
    requires StateOf(s.foe[i]) == UNBIND && KeyOf(cfg.gen, s.foe[i]) == Some(s.flows[c].key)
    ensures Step(cfg, s, Check(i, false, Some(c), timestamp, now),
                 s.(foe := s.foe[i := Promoted(cfg.gen, s.flows[c].template, s.foe[i], i, s.dsa, timestamp)],
                    flows := s.flows[c := Associated(s.flows[c], i, now)]))
  {
    hide KeyOf, StateOf, Promoted;
  }

  /** Both slots promoted, one for each flow. */
  function Bound(g: Gen, e: FlowEntry, timestamp: bv32, now: nat): State {
    var u := Learned(e.template);
    State([Promoted(g, e.template, u, 0, false, timestamp), Promoted(g, e.template, u, 1, false, timestamp)],
          map[0 := Associated(e, 0, now), 1 := Associated(e, 1, now)], {0, 1}, Idle, Running, false)
  }

  lemma PromotesTwice(cfg: Config, e: FlowEntry, timestamp: bv32, now: nat, m: State)
    requires Fresh(cfg, e)
    requires m == Twice(e).(foe := Twice(e).foe[0 := Promoted(cfg.gen, e.template, Learned(e.template), 0, false, timestamp)],
                            flows := map[0 := Associated(e, 0, now), 1 := e])
    ensures Step(cfg, Twice(e), Check(0, false, Some(0), timestamp, now), m)
    ensures Step(cfg, m, Check(1, false, Some(1), timestamp, now), Bound(cfg.gen, e, timestamp, now))
  {
    hide Compiled, KeyOf, StateOf, Learned, Promoted, Step;
    var g, u := cfg.gen, Learned(e.template);
    assert KeyOf(g, e.template) == Some(e.key) by { CompiledKey(g, e.rule, cfg.topology); }
    LearnedIsUnbind(g, e.template);
    CheckPromotes(cfg, Twice(e), 0, 0, timestamp, now);
    assert Twice(e).flows[0 := Associated(e, 0, now)] == m.flows;
    CheckPromotes(cfg, m, 1, 1, timestamp, now);
    assert m.flows[1 := Associated(e, 1, now)] == Bound(g, e, timestamp, now).flows;
    assert m.foe[1 := Promoted(g, e.template, u, 1, false, timestamp)] == Bound(g, e, timestamp, now).foe;
  }

  /** Removing the first flow's association leaves the second one's slot alone. */
  lemma RemoveLeavesOther(cfg: Config, e: FlowEntry, timestamp: bv32, now: nat)
    ensures var s := Bound(cfg.gen, e, timestamp, now);
            var t := Next(cfg, Next(cfg, s, Event.MarkDead(0)), Event.Remove);
            && Step(cfg, s, Event.MarkDead(0), Next(cfg, s, Event.MarkDead(0)))
            && Step(cfg, Next(cfg, s, Event.MarkDead(0)), Event.Remove, t)
            && t.phase == Running && t.control == Unbound(0) && 0 in t.flows && t.flows[0].key == e.key && t.flows[0].rule == e.rule
            && |t.foe| == 2 && t.foe[1] == s.foe[1]
  {
    hide KeyOf, StateOf, Withdrawn, Promoted, Learned;
  }

  /** One of two flows with this rule's tuple has had its association removed, and the tuple is still bound. */
  ghost predicate Outlives(cfg: Config, rule: Rule, t: State) {
    && t.phase == Running && t.control == Unbound(0) && 0 in t.flows && t.flows[0].rule == rule
    && exists i :: 0 <= i < |t.foe| && IsBound(cfg.gen, t.foe[i], t.flows[0].key)
  }

  /** The other side of WithdrawalExactly, in one run: every rule that compiles can be given under two cookies, and
      then its tuple is still bound after a destroy has removed the association of one of them. */
  lemma SharedTupleDefeatsWithdrawal(cfg: Config, rule: Rule, timestamp: bv32, now: nat)
    requires Compiled(cfg.gen, rule, cfg.topology).Ok?
    ensures exists s, evs, t :: Initial(s) && Performs(cfg, s, evs, t) && Outlives(cfg, rule, t)
  {
    hide Compiled, KeyOf, StateOf, Learned, Promoted, Withdrawn, Performs, Step, Initial, Next, IsBound;
    var e := NewFlow(cfg, rule);
    NewFlowIsFresh(cfg, rule);
    LinksTwice(cfg, e);
    var m := Twice(e).(foe := Twice(e).foe[0 := Promoted(cfg.gen, e.template, Learned(e.template), 0, false, timestamp)],
                       flows := map[0 := Associated(e, 0, now), 1 := e]);
    PromotesTwice(cfg, e, timestamp, now, m);
    RemoveLeavesOther(cfg, e, timestamp, now);
    var s := Bound(cfg.gen, e, timestamp, now);
    var d := Next(cfg, s, Event.MarkDead(0));
    var t := Next(cfg, d, Event.Remove);
    PerformsFour(cfg, Twice(e), m, s, d, t, Check(0, false, Some(0), timestamp, now), Check(1, false, Some(1), timestamp, now),
                 Event.MarkDead(0), Event.Remove);
    PerformsAll(cfg, Blank(e), LinkEvents(e), Twice(e), PromoteEvents(timestamp, now), t);
    SecondIsBound(cfg, e, timestamp, now);
    assert IsBound(cfg.gen, t.foe[1], t.flows[0].key);
  }

  lemma SecondIsBound(cfg: Config, e: FlowEntry, timestamp: bv32, now: nat)
    requires Fresh(cfg, e)
    ensures IsBound(cfg.gen, Bound(cfg.gen, e, timestamp, now).foe[1], e.key)
  {
    hide Compiled, KeyOf, StateOf, Learned, Promoted, IsBound;
    CompiledKey(cfg.gen, e.rule, cfg.topology);
    LearnedIsUnbind(cfg.gen, e.template);
    PromotedIsBound(cfg.gen, e.template, Learned(e.template), 1, false, timestamp, e.key);
  }
}
