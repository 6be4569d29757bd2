/** struct ra_ppe and its flows, updated in place; every lock section implements one protocol step. */
module Engine {
  import opened Wire
  import opened Flow
  import opened Foe
  import opened Topology
  import opened Generation
  import opened Protocol
  import opened Paths

  /** struct ra_flow_entry with its private template. */
  class Entry {
    const cookie: Cookie
    const rule: Rule
    const key: Key
    const template: Foe
    var hash: nat
    var hashValid: bool
    var dead: bool
    var lastUsed: nat

    ghost function View(): FlowEntry
      reads this
    {
      FlowEntry(rule, key, template, hash, hashValid, dead, lastUsed)
    }

    constructor (cookie: Cookie, rule: Rule, t: Template)
      ensures this.cookie == cookie && View() == FlowEntry(rule, t.key, t.foe, 0, false, false, 0)
    {
      this.cookie, this.rule, this.key, this.template := cookie, rule, t.key, t.foe;
      hash, hashValid, dead, lastUsed := 0, false, false, 0;
    }
  }

  class Ppe {
    const cfg: Config
    var foe: array<Foe>
    var flowTable: map<Cookie, Entry>
    var tupleTable: set<Entry>
    var dsa: bool
    var running: bool
    ghost var control: Control
    ghost var phase: Phase

    /** Entries are filed under their own cookie, and the tuple table holds none that is not. */
    ghost predicate Valid()
      reads this
    {
      && (forall c :: c in flowTable ==> flowTable[c].cookie == c)
      && (forall e :: e in tupleTable ==> e.cookie in flowTable && flowTable[e.cookie] == e)
      && (running <==> phase == Running)
    }

    ghost function Flows(): map<Cookie, FlowEntry>
      reads this, flowTable.Values
    {
      map c | c in flowTable :: flowTable[c].View()
    }

    ghost function Tuples(): set<Cookie>
      reads this
    {
      set c | c in flowTable && flowTable[c] in tupleTable
    }

    /** The protocol state this object is in. */
    ghost function View(): State
      reads this, foe, flowTable.Values
    {
      State(foe[..], Flows(), Tuples(), control, phase, dsa)
    }

    constructor (cfg: Config, foe: array<Foe>)
      requires forall i :: 0 <= i < foe.Length ==> foe[i] == ZERO_FOE
      ensures Valid() && this.cfg == cfg && this.foe == foe
      ensures View() == State(foe[..], map[], {}, Idle, Halted, false)
    {
      this.cfg, this.foe := cfg, foe;
      flowTable, tupleTable, dsa, running := map[], {}, false, false;
      control, phase := Idle, Halted;
    }

    /** Exact-match lookup; with two equal keys in the table either may be found. */
    method LookupTuple(key: Key) returns (entry: Option<Entry>)
      requires Valid()
      ensures entry.Some? ==> entry.value in tupleTable && entry.value.key == key
      ensures entry.None? ==> forall e :: e in tupleTable ==> e.key != key
    {
      if e :| e in tupleTable && e.key == key {
        return Some(e);
      }
      return None;
    }

    /** The slot is a BIND for this key; the key is read only after the state. */
    method FoeIsBound(e: Foe, key: Key) returns (bound: bool)
      ensures bound == IsBound(cfg.gen, e, key)
    {
      hide KeyOf, StateOf;
      if StateOf(e) != BIND { return false; }
      var found := ReadKey(cfg.gen, e);
      bound := found == Some(key);
    }

    /** The part of the check after the lookup: keepalive credit, or promotion of the learned slot. */
    method CheckEntry(entry: Entry, slot: nat, keepalive: bool, timestamp: bv32, now: nat) returns (ok: bool)
      requires slot < foe.Length
      modifies foe, entry
      ensures (foe[..], entry.View(), ok)
              == CheckFlow(cfg.gen, old(foe[..]), dsa, old(entry.View()), slot, keepalive, timestamp, now)
    {
      hide KeyOf, StateOf, Promoted;
      if entry.dead { return false; }
      if keepalive {
        if !entry.hashValid || entry.hash != slot { return false; }
        entry.lastUsed := now;
        return true;
      }
      if entry.hashValid && entry.hash != slot {
        if entry.hash < foe.Length {
          var bound := FoeIsBound(foe[entry.hash], entry.key);
          if bound { return false; }
        }
        entry.hashValid := false;
      }
      foe[slot] := Promoted(cfg.gen, entry.template, foe[slot], slot, dsa, timestamp);
      entry.hash := slot;
      entry.hashValid := true;
      entry.lastUsed := now;
      ok := true;
    }

    /** The RX check as one lock section: the protocol's Check step on the flow that the lookup found. */
    method OffloadCheck(slot: nat, keepalive: bool, timestamp: bv32, now: nat)
      returns (ok: bool, ghost pick: Option<Cookie>)
      requires Valid() && phase == Running
      modifies foe, flowTable.Values
      ensures Valid()
      ensures Enabled(cfg, old(View()), Check(slot, keepalive, pick, timestamp, now))
      ensures (View(), ok) == Checked(cfg.gen, old(View()), slot, keepalive, pick, timestamp, now)
    {
      hide KeyOf, StateOf, CheckFlow;
      ok, pick := false, None;
      if slot >= foe.Length { return; }
      if StateOf(foe[slot]) != (if keepalive then BIND else UNBIND) { return; }
      var key := ReadKey(cfg.gen, foe[slot]);
      if key.None? { return; }
      var found := LookupTuple(key.value);
      if found.None? { return; }
      var entry := found.value;
      pick := Some(entry.cookie);
      ok := CheckEntry(entry, slot, keepalive, timestamp, now);
      assert Flows() == old(Flows())[entry.cookie := entry.View()];
    }

    // ---- Destroy ----

    /** The hardware half, under the table lock: clear the remembered slot only while it is still this flow's. */
    method RemoveAssociation(entry: Entry)
      modifies foe, entry
      ensures foe[..] == Removed(cfg.gen, old(foe[..]), old(entry.View()))
      ensures OwnSlotCleared(cfg.gen, old(foe[..]), foe[..], old(entry.View()))
      ensures entry.View() == old(entry.View()).(hashValid := false)
    {
      hide KeyOf, StateOf, Withdrawn, OwnSlotCleared;
      RemovedClears(cfg.gen, foe[..], entry.View());
      if entry.hashValid {
        if entry.hash < foe.Length {
          var bound := FoeIsBound(foe[entry.hash], entry.key);
          if bound { foe[entry.hash] := Withdrawn(cfg.gen, foe[entry.hash]); }
        }
        entry.hashValid := false;
      }
    }

    method MarkDead(c: Cookie)
      requires Valid() && c in flowTable && control == Idle
      modifies this`control, flowTable[c]
      ensures Valid() && control == Dying(c) && flowTable[c].View() == old(flowTable[c].View()).(dead := true)
      ensures Step(cfg, old(View()), Event.MarkDead(c), View())
    {
      hide KeyOf, StateOf, Checked, CheckKey, Removed, HwMay, LookupResult;
      flowTable[c].dead := true;
      control := Dying(c);
      assert Flows() == old(Flows())[c := flowTable[c].View()];
    }

    method Remove(c: Cookie)
      requires Valid() && c in flowTable && control == Dying(c)
      modifies this`control, foe, flowTable[c]
      ensures Valid() && control == Unbound(c)
      ensures OwnSlotCleared(cfg.gen, old(foe[..]), foe[..], old(flowTable[c].View()))
      ensures Step(cfg, old(View()), Event.Remove, View())
    {
      hide KeyOf, StateOf, Withdrawn, Removed, OwnSlotCleared;
      RemoveAssociation(flowTable[c]);
      control := Unbound(c);
      assert Flows() == old(Flows())[c := flowTable[c].View()];
    }

    method UnlinkTuple(c: Cookie)
      requires Valid() && c in flowTable && control == Unbound(c)
      modifies this`control, this`tupleTable
      ensures Valid() && control == TupleGone(c) && tupleTable == old(tupleTable) - {flowTable[c]}
      ensures Step(cfg, old(View()), Event.UnlinkTuple, View())
    {
      hide KeyOf, StateOf, Checked, CheckKey, Removed, HwMay, LookupResult;
      tupleTable := tupleTable - {flowTable[c]};
      control := TupleGone(c);
      assert Tuples() == old(Tuples()) - {c};
    }

    method UnlinkCookie(c: Cookie)
      requires Valid() && c in flowTable && flowTable[c] !in tupleTable && control == TupleGone(c)
      modifies this`control, this`flowTable
      ensures Valid() && control == Idle && flowTable == old(flowTable) - {c}
      ensures Step(cfg, old(View()), Event.UnlinkCookie, View())
    {
      hide KeyOf, StateOf, Checked, CheckKey, Removed, HwMay, LookupResult;
      flowTable := flowTable - {c};
      control := Idle;
      assert Flows() == old(Flows()) - {c};
    }

    /** A whole destroy: its four lock sections one after another, or nothing for an unknown cookie. */
    method Destroy(c: Cookie)
      requires Valid() && control == Idle
      modifies this`control, this`tupleTable, this`flowTable, foe, flowTable.Values
      ensures Valid() && control == Idle && flowTable == old(flowTable) - {c}
      ensures if c in old(flowTable) then
                && tupleTable == old(tupleTable) - {old(flowTable[c])}
                && OwnSlotCleared(cfg.gen, old(foe[..]), foe[..], old(flowTable[c].View()))
              else View() == old(View())
      ensures Performs(cfg, old(View()), if c in old(flowTable) then DestroyEvents(c) else [], View())
    {
      hide Step, Performs, Valid, IsBound, Invalidated;
      ghost var s0 := View();
      PerformsNone(cfg, s0);
      if c !in flowTable { return; }
      MarkDead(c);
      ghost var s1 := View();
      Remove(c);
      ghost var s2 := View();
      UnlinkTuple(c);
      ghost var s3 := View();
      UnlinkCookie(c);
      PerformsDestroy(cfg, s0, s1, s2, s3, View(), c);
    }

    // ---- Replace ----

    method LinkCookie(entry: Entry)
      requires Valid() && control == Idle && entry.cookie !in flowTable && Fresh(cfg, entry.View())
      modifies this`control, this`flowTable
      ensures Valid() && control == Inserting(entry.cookie)
      ensures flowTable == old(flowTable)[entry.cookie := entry] && entry !in tupleTable
      ensures Step(cfg, old(View()), InsertCookie(entry.cookie, entry.View()), View())
    {
      hide Compiled, KeyOf, StateOf, Checked, CheckKey, Removed, HwMay, LookupResult;
      flowTable := flowTable[entry.cookie := entry];
      control := Inserting(entry.cookie);
      assert Flows() == old(Flows())[entry.cookie := entry.View()];
    }

    method LinkTuple(entry: Entry)
      requires Valid() && control == Inserting(entry.cookie) && entry.cookie in flowTable && flowTable[entry.cookie] == entry
      modifies this`control, this`tupleTable
      ensures Valid() && control == Idle && tupleTable == old(tupleTable) + {entry}
      ensures Step(cfg, old(View()), InsertTuple, View())
    {
      hide KeyOf, StateOf, Checked, CheckKey, Removed, HwMay, LookupResult;
      tupleTable := tupleTable + {entry};
      control := Idle;
      assert Tuples() == old(Tuples()) + {entry.cookie};
    }

    method UnlinkNew(entry: Entry)
      requires Valid() && control == Inserting(entry.cookie) && entry.cookie in flowTable
      requires flowTable[entry.cookie] == entry && entry !in tupleTable
      modifies this`control, this`flowTable
      ensures Valid() && control == Idle && flowTable == old(flowTable) - {entry.cookie}
      ensures Step(cfg, old(View()), InsertTupleFails, View())
    {
      hide KeyOf, StateOf, Checked, CheckKey, Removed, HwMay, LookupResult;
      flowTable := flowTable - {entry.cookie};
      control := Idle;
      assert Flows() == old(Flows()) - {entry.cookie};
    }

    /** The RX-visible tuple table is linked last; when that fails, the cookie is unlinked again.
        `cookieErr` and `tupleErr` are what the two hash tables answer. */
    method Insert(entry: Entry, cookieErr: Option<Error>, tupleErr: Option<Error>) returns (err: Option<Error>)
      requires Valid() && control == Idle && entry.cookie !in flowTable && Fresh(cfg, entry.View())
      modifies this`control, this`flowTable, this`tupleTable
      ensures Valid() && control == Idle
      ensures err == if cookieErr.Some? then cookieErr else tupleErr
      ensures err.Some? ==> flowTable == old(flowTable) && tupleTable == old(tupleTable)
      ensures err.None? ==> flowTable == old(flowTable)[entry.cookie := entry] && tupleTable == old(tupleTable) + {entry}
      ensures Performs(cfg, old(View()), InsertEvents(entry.cookie, entry.View(), cookieErr, tupleErr), View())
    {
      hide Step, Performs, Valid, Fresh;
      ghost var s0 := View();
      PerformsNone(cfg, s0);
      if cookieErr.Some? { return cookieErr; }
      LinkCookie(entry);
      ghost var s1 := View();
      if tupleErr.Some? {
        UnlinkNew(entry);
        assert flowTable == old(flowTable);
      } else {
        LinkTuple(entry);
      }
      PerformsInsert(cfg, s0, s1, View(), entry.cookie, entry.View(), tupleErr);
      err := tupleErr;
    }

    /** Replace succeeds exactly for a rule that compiles under a new cookie while memory and both tables last; the
        flow is then in both tables with what its rule compiles to. Each failure changes nothing and has its own error:
        an unsupported chain, a known cookie, the rule's own error, memory, and then the failing table's. */
    method Replace(c: Cookie, rule: Rule, memory: bool, cookieErr: Option<Error>, tupleErr: Option<Error>)
      returns (err: Option<Error>)
      requires Valid() && control == Idle
      modifies this`control, this`flowTable, this`tupleTable
      ensures Valid() && control == Idle
      ensures var compiled := Compiled(cfg.gen, rule, cfg.topology);
              && (err.None? <==> c !in old(flowTable) && compiled.Ok? && memory && cookieErr.None? && tupleErr.None?)
              && (rule.chain != 0 ==> err == Some(EOPNOTSUPP))
              && (rule.chain == 0 && c in old(flowTable) ==> err == Some(EEXIST))
              && (c !in old(flowTable) && compiled.Err? ==> err == Some(compiled.error))
              && (c !in old(flowTable) && compiled.Ok? && !memory ==> err == Some(ENOMEM))
              && (c !in old(flowTable) && compiled.Ok? && memory && cookieErr.Some? ==> err == cookieErr)
              && (c !in old(flowTable) && compiled.Ok? && memory && cookieErr.None? && tupleErr.Some? ==> err == tupleErr)
      ensures err.Some? ==> flowTable == old(flowTable) && tupleTable == old(tupleTable) && View() == old(View())
      ensures err.None? ==>
                && c in flowTable && fresh(flowTable[c]) && flowTable == old(flowTable)[c := flowTable[c]]
                && tupleTable == old(tupleTable) + {flowTable[c]}
                && Compiled(cfg.gen, rule, cfg.topology) == Ok(Template(flowTable[c].key, flowTable[c].template))
                && flowTable[c].cookie == c && flowTable[c].rule == rule
                && !flowTable[c].hashValid && !flowTable[c].dead && flowTable[c].lastUsed == 0
      ensures err.None? ==> Performs(cfg, old(View()), InsertEvents(c, NewFlow(cfg, rule), None, None), View())
    {
      hide Step, Performs, Valid, Compiled, Fresh;
      ChainError(cfg, rule);
      if rule.chain != 0 { return Some(EOPNOTSUPP); }
      if c in flowTable { return Some(EEXIST); }
      var t := Compile(cfg.gen, rule, cfg.topology);
      if t.Err? { return Some(t.error); }
      if !memory { return Some(ENOMEM); }
      var entry := new Entry(c, rule, t.value);
      NewFlowIsFresh(cfg, rule);
      err := Insert(entry, cookieErr, tupleErr);
    }

    // ---- Engine start and stop, and the flow table's end ----

    method ForgetOne(c: Cookie)
      requires Valid() && c in flowTable && control.Forgetting? && c in control.todo
      modifies this`control, flowTable[c]
      ensures Valid() && control == Forgetting(old(control).todo - {c})
      ensures Step(cfg, old(View()), Event.ForgetOne(c), View())
    {
      hide KeyOf, StateOf, Checked, CheckKey, Removed, HwMay, LookupResult;
      flowTable[c].hashValid := false;
      control := Forgetting(control.todo - {c});
      assert Flows() == old(Flows())[c := flowTable[c].View()];
    }

    ghost method BeginWalk()
      requires Valid() && control == Idle && phase == Halted
      modifies this`control
      ensures Valid() && control == Forgetting(flowTable.Keys)
      ensures Step(cfg, old(View()), BeginForget, View())
    {
      hide KeyOf, StateOf, Checked, CheckKey, Removed, HwMay, LookupResult;
      control := Forgetting(flowTable.Keys);
    }

    ghost method EndWalk()
      requires Valid() && control == Forgetting({}) && phase == Halted
      modifies this`control, this`phase
      ensures Valid() && control == Idle && phase == Forgotten
      ensures Step(cfg, old(View()), EndForget, View())
    {
      hide KeyOf, StateOf, Checked, CheckKey, Removed, HwMay, LookupResult;
      control, phase := Idle, Forgotten;
    }

    /** Walk the cookie table in any order and forget every remembered slot; the flows stay authorised. */
    method Reset()
      requires Valid() && control == Idle && phase == Halted
      modifies this`control, this`phase, flowTable.Values
      ensures Valid() && control == Idle && phase == Forgotten
      ensures View() == Forgot(old(View()), {}).(phase := Forgotten)
      ensures forall c :: c in flowTable ==> flowTable[c].View() == old(flowTable[c].View()).(hashValid := false)
      ensures Quietly(cfg, old(View()), View())
    {
      hide Step, Quietly, Valid, Forgot;
      ghost var s0 := View();
      QuietlyNone(cfg, s0);
      var todo := flowTable.Keys;
      BeginWalk();
      QuietlyNext(cfg, s0, s0, BeginForget, View());
      ForgotStart(cfg, s0, View());
      while todo != {}
        invariant todo <= flowTable.Keys && control == Forgetting(todo) && phase == Halted && Valid()
        invariant View() == Walking(s0, todo)
        invariant Quietly(cfg, s0, View())
      {
        var c :| c in todo;
        ghost var s := View();
        ForgetOne(c);
        QuietlyNext(cfg, s0, s, Event.ForgetOne(c), View());
        ForgotStep(cfg, s0, todo, c, View());
        todo := todo - {c};
      }
      ghost var s := View();
      EndWalk();
      QuietlyNext(cfg, s0, s, EndForget, View());
      ForgotEnd(cfg, s0, View());
      ForgotFlows(s0);
      forall c | c in flowTable ensures flowTable[c].View() == old(flowTable[c].View()).(hashValid := false) {
        assert View().flows[c] == flowTable[c].View();
      }
    }

    method HaltEngine()
      requires Valid() && control == Idle
      modifies this`running, this`phase
      ensures Valid() && phase == Halted && Step(cfg, old(View()), Halt, View())
    {
      hide KeyOf, StateOf, Checked, CheckKey, Removed, HwMay, LookupResult;
      running, phase := false, Halted;
    }

    method ClearTable()
      requires Valid() && phase == Forgotten
      modifies this`phase, foe
      ensures Valid() && phase == Cleared && Step(cfg, old(View()), ClearAll, View())
      ensures !running && forall i :: 0 <= i < foe.Length ==> foe[i] == ZERO_FOE
    {
      hide StateOf;
      forall i | 0 <= i < foe.Length { foe[i] := ZERO_FOE; }
      phase := Cleared;
      assert foe[..] == seq(foe.Length, _ => ZERO_FOE);
    }

    method EnableEngine()
      requires Valid() && phase == Cleared
      modifies this`running, this`phase
      ensures Valid() && phase == Running && running && Step(cfg, old(View()), Enable, View())
    {
      hide KeyOf, StateOf, Checked, CheckKey, Removed, HwMay, LookupResult;
      running, phase := true, Running;
    }

    /** start(): from a quiescent engine, forget all slots, clear the table, and only then enable it.
        `addressable` says whether the table's bus address fits the engine's 32-bit base register. */
    method Start(addressable: bool) returns (err: Option<Error>)
      requires Valid() && control == Idle
      modifies this`control, this`phase, this`running, foe, flowTable.Values
      ensures Valid() && control == Idle
      ensures err == if !SupportedSize(foe.Length) then Some(EINVAL) else if !addressable then Some(ERANGE) else None
      ensures err == Some(EINVAL) ==> View() == old(View())
      ensures err != Some(EINVAL) ==>
                && (running <==> addressable) && (forall i :: 0 <= i < foe.Length ==> foe[i] == ZERO_FOE)
                && forall c :: c in flowTable ==> flowTable[c].View() == old(flowTable[c].View()).(hashValid := false)
      ensures err != Some(EINVAL) ==> View() == Restarted(old(View())).(phase := if addressable then Running else Cleared)
      ensures Quietly(cfg, old(View()), View())
    {
      hide Step, Quietly, Valid, Forgot;
      ghost var s0 := View();
      QuietlyNone(cfg, s0);
      if !SupportedSize(foe.Length) { return Some(EINVAL); }
      HaltEngine();
      ghost var s1 := View();
      Reset();
      ghost var s2 := View();
      ClearTable();
      StartSteps(cfg, s0, s1, s2, View());
      if !addressable { return Some(ERANGE); }
      ghost var s3 := View();
      EnableEngine();
      StartLast(cfg, s0, s3, View());
      return None;
    }

    /** stop(): no slot index survives as a valid association. */
    method Stop()
      requires Valid() && control == Idle
      modifies this`control, this`phase, this`running, flowTable.Values
      ensures Valid() && control == Idle
      ensures View() == Forgot(old(View()), {}).(phase := Forgotten)
      ensures forall c :: c in flowTable ==> flowTable[c].View() == old(flowTable[c].View()).(hashValid := false)
      ensures Quietly(cfg, old(View()), View())
    {
      hide Step, Quietly, Valid, Forgot;
      ghost var s0 := View();
      HaltEngine();
      ghost var s1 := View();
      Reset();
      StopSteps(cfg, s0, s1, View());
    }

    method FlushTuple(c: Cookie)
      requires Valid() && control == Idle && phase != Running && c in flowTable
      modifies this`control, this`tupleTable, flowTable[c]
      ensures Valid() && control == TupleGone(c) && flowTable[c] !in tupleTable
      ensures Step(cfg, old(View()), Event.FlushTuple(c), View())
    {
      hide KeyOf, StateOf, Checked, CheckKey, Removed, HwMay, LookupResult;
      flowTable[c].dead := true;
      tupleTable := tupleTable - {flowTable[c]};
      control := TupleGone(c);
      assert Flows() == old(Flows())[c := flowTable[c].View()];
      assert Tuples() == old(Tuples()) - {c};
    }

    /** The table's end, after the engine was stopped: both tables are emptied, slots are left as they are. */
    method Flush()
      requires Valid() && control == Idle && phase != Running
      modifies this`control, this`tupleTable, this`flowTable, flowTable.Values
      ensures Valid() && control == Idle
      ensures View() == old(View()).(flows := map[], tuples := {}) && flowTable == map[] && tupleTable == {}
      ensures Quietly(cfg, old(View()), View())
    {
      hide Step, Quietly, Valid;
      ghost var s0 := View();
      QuietlyNone(cfg, s0);
      while flowTable != map[]
        invariant Valid() && control == Idle && phase == s0.phase
        invariant flowTable.Values <= old(flowTable.Values)
        invariant foe[..] == s0.foe && dsa == s0.dsa
        invariant Quietly(cfg, s0, View())
        decreases |flowTable|
      {
        var c :| c in flowTable;
        ghost var s := View();
        FlushTuple(c);
        QuietlyNext(cfg, s0, s, Event.FlushTuple(c), View());
        s := View();
        UnlinkCookie(c);
        QuietlyNext(cfg, s0, s, Event.UnlinkCookie, View());
      }
      NothingLinked();
      assert View() == old(View()).(flows := map[], tuples := {});
    }

    lemma NothingLinked()
      requires Valid() && flowTable == map[]
      ensures tupleTable == {}
    {
      assert forall e :: e in tupleTable ==> e.cookie in flowTable;
    }

    /** Statistics: when hardware was last seen using the flow. */
    method Stats(c: Cookie) returns (r: Result<nat>)
      ensures r == if c in flowTable then Ok(flowTable[c].lastUsed) else Err(ENOENT)
    {
      return if c in flowTable then Ok(flowTable[c].lastUsed) else Err(ENOENT);
    }
  }

  // ---- What the operations do, as values ----

  function DestroyEvents(c: Cookie): seq<Event> {
    [Event.MarkDead(c), Event.Remove, Event.UnlinkTuple, Event.UnlinkCookie]
  }

  lemma PerformsDestroy(cfg: Config, s0: State, s1: State, s2: State, s3: State, s4: State, c: Cookie)
    requires Step(cfg, s0, Event.MarkDead(c), s1) && Step(cfg, s1, Event.Remove, s2)
    requires Step(cfg, s2, Event.UnlinkTuple, s3) && Step(cfg, s3, Event.UnlinkCookie, s4)
    ensures Performs(cfg, s0, DestroyEvents(c), s4)
  {
    hide Step;
    PerformsNext(cfg, s0, [], s0, Event.MarkDead(c), s1);
    PerformsNext(cfg, s0, [] + [Event.MarkDead(c)], s1, Event.Remove, s2);
    PerformsNext(cfg, s0, [] + [Event.MarkDead(c)] + [Event.Remove], s2, Event.UnlinkTuple, s3);
    PerformsNext(cfg, s0, [] + [Event.MarkDead(c)] + [Event.Remove] + [Event.UnlinkTuple], s3, Event.UnlinkCookie, s4);
    assert [] + [Event.MarkDead(c)] + [Event.Remove] + [Event.UnlinkTuple] + [Event.UnlinkCookie] == DestroyEvents(c);
  }

  function InsertEvents(c: Cookie, entry: FlowEntry, cookieErr: Option<Error>, tupleErr: Option<Error>): seq<Event> {
    if cookieErr.Some? then []
    else [InsertCookie(c, entry), if tupleErr.Some? then InsertTupleFails else InsertTuple]
  }

  lemma PerformsInsert(cfg: Config, s0: State, s1: State, s2: State, c: Cookie, entry: FlowEntry, tupleErr: Option<Error>)
    requires Step(cfg, s0, InsertCookie(c, entry), s1)
    requires Step(cfg, s1, if tupleErr.Some? then InsertTupleFails else InsertTuple, s2)
    ensures Performs(cfg, s0, InsertEvents(c, entry, None, tupleErr), s2)
  {
    hide Step, Performs;
    PerformsTwo(cfg, s0, s1, s2, InsertCookie(c, entry), if tupleErr.Some? then InsertTupleFails else InsertTuple);
  }

  /** The flow that a replace links for this rule. */
  ghost function NewFlow(cfg: Config, rule: Rule): FlowEntry
    requires Compiled(cfg.gen, rule, cfg.topology).Ok?
  {
    var t := Compiled(cfg.gen, rule, cfg.topology).value;
    FlowEntry(rule, t.key, t.foe, 0, false, false, 0)
  }

  lemma NewFlowIsFresh(cfg: Config, rule: Rule)
    requires Compiled(cfg.gen, rule, cfg.topology).Ok?
    ensures Fresh(cfg, NewFlow(cfg, rule))
  {
    hide Compiled;
  }

  lemma ChainError(cfg: Config, rule: Rule)
    ensures rule.chain != 0 ==> Compiled(cfg.gen, rule, cfg.topology) == Err(EOPNOTSUPP)
  {}

  /** A started engine's state but for its phase: no association and a zeroed table. */
  ghost function Restarted(s: State): State {
    Forgot(s, {}).(foe := seq(|s.foe|, _ => ZERO_FOE))
  }

  predicate SupportedSize(n: nat) { n in {1024, 2048, 4096, 8192, 16384} }

  lemma StopSteps(cfg: Config, s0: State, s1: State, s2: State)
    requires Step(cfg, s0, Halt, s1) && Quietly(cfg, s1, s2) && s2 == Forgot(s1, {}).(phase := Forgotten)
    ensures Quietly(cfg, s0, s2) && s2 == Forgot(s0, {}).(phase := Forgotten)
  {
    hide Quietly;
    QuietlyNone(cfg, s0);
    QuietlyNext(cfg, s0, s0, Halt, s1);
    QuietlyAll(cfg, s0, s1, s2);
  }

  lemma StartSteps(cfg: Config, s0: State, s1: State, s2: State, s3: State)
    requires Step(cfg, s0, Halt, s1) && Quietly(cfg, s1, s2) && s2 == Forgot(s1, {}).(phase := Forgotten)
    requires Step(cfg, s2, ClearAll, s3)
    ensures Quietly(cfg, s0, s3) && s3 == Restarted(s0).(phase := Cleared)
  {
    hide Quietly;
    StopSteps(cfg, s0, s1, s2);
    QuietlyNext(cfg, s0, s2, ClearAll, s3);
  }

  lemma StartLast(cfg: Config, s0: State, s3: State, s4: State)
    requires Quietly(cfg, s0, s3) && Step(cfg, s3, Enable, s4)
    ensures Quietly(cfg, s0, s4) && s4 == s3.(phase := Running)
  {
    hide Quietly;
    QuietlyNext(cfg, s0, s3, Enable, s4);
  }
}
