/** One rule that both generations accept: what is proved of compiled rules is not proved of nothing. */
module Sample {
  import opened Wire
  import opened Flow
  import opened Foe
  import opened Topology
  import opened Pedit
  import opened Generation
  import FoeV1
  import FoeV2

  const MATCH := Match({Meta, Control, Basic, Ipv4Addrs, Ports}, false, 0xffff, Ipv4Addrs, false,
                       0xffff, HTONS_IP, 0xff, IPPROTO_UDP,
                       ALL_ONES, Ipv4Addr(0x0100_a8c0), ALL_ONES, Ipv4Addr(0x0200_a8c0),
                       0xffff, 0x3930, 0xffff, 0x3500, 0, 0)

  const TO_DEST_HIGH := Mangle(EthHdr, 0, 0, 0x0000_0002)
  const TO_DEST_LOW := Mangle(EthHdr, 4, 0xffff_0000, 0x0000_0100)
  const TO_SOURCE_HIGH := Mangle(EthHdr, 4, 0x0000_ffff, 0x0002_0000)
  const TO_SOURCE_LOW := Mangle(EthHdr, 8, 0, 0x0200_0000)
  const ACTIONS := [TO_DEST_HIGH, TO_DEST_LOW, TO_SOURCE_HIGH, TO_SOURCE_LOW, Redirect(Some(1))]
  const RULE := Rule(0, MATCH, true, ACTIONS)

  const KEY := Key(HTONS_IP, IPPROTO_UDP, 0x3930, 0x3500, Ipv4Addr(0x0100_a8c0), Ipv4Addr(0x0200_a8c0))

  lemma Windows()
    ensures EthWindow(TO_DEST_HIGH) == Some((0, [2, 0, 0, 0])) && EthWindow(TO_DEST_LOW) == Some((4, [0, 1]))
    ensures EthWindow(TO_SOURCE_HIGH) == Some((6, [2, 0])) && EthWindow(TO_SOURCE_LOW) == Some((8, [0, 0, 0, 2]))
  {}

  function After(g: Gathered, at: nat, bytes: Bytes): Gathered
    requires at + |bytes| <= 12
  {
    g.(link := g.link.(eth := Splice(g.link.eth, at, bytes)))
  }

  lemma GatherMac(a: Action, rest: seq<Action>, g: Gathered)
    requires a.Mangle? && a.htype == EthHdr && EthWindow(a).Some?
    ensures var (at, bytes) := EthWindow(a).value;
            Gather([a] + rest, KEY, g) == Gather(rest, KEY, After(g, at, bytes))
  {
    hide Splice, EthWindow;
    assert ([a] + rest)[1..] == rest;
  }

  /** The two passes accept the sample: destination 02:00:00:00:00:01, source 02:00:00:00:00:02, device 1. */
  lemma Gathers()
    ensures var r := Gather(ACTIONS, KEY, Gathered(EMPTY_LINK, false));
            r.Ok? && r.value.link.outDev == Some(1) && r.value.link == EMPTY_LINK.(eth := r.value.link.eth, outDev := Some(1))
            && r.value.link.eth[0] == 2 && r.value.link.eth[6] == 2
  {
    hide EthWindow, GatherOne;
    Windows();
    var g := Gathered(EMPTY_LINK, false);
    GatherMac(TO_DEST_HIGH, [TO_DEST_LOW, TO_SOURCE_HIGH, TO_SOURCE_LOW, Redirect(Some(1))], g);
    var g1 := After(g, 0, [2, 0, 0, 0]);
    GatherMac(TO_DEST_LOW, [TO_SOURCE_HIGH, TO_SOURCE_LOW, Redirect(Some(1))], g1);
    var g2 := After(g1, 4, [0, 1]);
    GatherMac(TO_SOURCE_HIGH, [TO_SOURCE_LOW, Redirect(Some(1))], g2);
    var g3 := After(g2, 6, [2, 0]);
    GatherMac(TO_SOURCE_LOW, [Redirect(Some(1))], g3);
    var g4 := After(g3, 8, [0, 0, 0, 2]);
    assert ACTIONS == [TO_DEST_HIGH] + [TO_DEST_LOW, TO_SOURCE_HIGH, TO_SOURCE_LOW, Redirect(Some(1))];
    assert [TO_DEST_LOW] + [TO_SOURCE_HIGH, TO_SOURCE_LOW, Redirect(Some(1))] == [TO_DEST_LOW, TO_SOURCE_HIGH, TO_SOURCE_LOW, Redirect(Some(1))];
    GatherRedirect(g4);
  }

  lemma GatherRedirect(g: Gathered)
    requires g.link.outDev.None?
    ensures Gather([Redirect(Some(1))], KEY, g) == Ok(g.(link := g.link.(outDev := Some(1))))
  {
    assert [Redirect(Some(1))][1..] == [];
  }

  predicate LinkOnly(a: Action) { a.Redirect? || (a.Mangle? && a.htype == EthHdr) }

  lemma {:induction false} TranslatesNothing(acts: seq<Action>, n: Nat)
    requires forall a :: a in acts ==> LinkOnly(a)
    ensures Translate(acts, KEY, n) == Ok(n)
  {
    if acts != [] {
      assert LinkOnly(acts[0]);
      TranslatesNothing(acts[1..], n);
    }
  }

  lemma Matches()
    ensures ParseMatch(MATCH) == Ok(KEY)
  {}

  lemma Parses()
    ensures Parsed(RULE).Ok?
    ensures var data := Parsed(RULE).value;
            data.tuple == KEY && data.rewritten == InitialData(KEY).rewritten && data.link == EMPTY_LINK.(eth := data.link.eth, outDev := Some(1))
  {
    hide Gather, Translate, ParseMatch;
    Matches();
    Gathers();
    TranslatesNothing(ACTIONS, InitialData(KEY).rewritten);
    var eth := Gather(ACTIONS, KEY, Gathered(EMPTY_LINK, false)).value.link.eth;
    assert eth[6..][0] == 2 && eth[..6][0] == 2;
  }

  /** The sample compiles for both generations, and its mangles cover both addresses and leave nothing under a mask. */
  lemma SampleCompiles(g: Gen)
    ensures Compiled(g, RULE, _ => NotDsa(true)).Ok? && Covered(RULE.actions) && Settled(RULE.actions)
  {
    hide Parsed, FoeV1.Built, FoeV2.BuiltIpv4;
    Parses();
    CoversAll();
    CleanIsSettled(RULE);
  }

  lemma CoversAll()
    ensures Clean(ACTIONS) && Covered(ACTIONS)
  {
    hide EthWindow;
    Windows();
    assert ACTIONS[0] in ACTIONS && ACTIONS[1] in ACTIONS && ACTIONS[2] in ACTIONS && ACTIONS[3] in ACTIONS;
    forall i | 0 <= i < 12 ensures CoveredAt(ACTIONS, i) {
      assert Covers(if i < 4 then ACTIONS[0] else if i < 6 then ACTIONS[1] else if i < 8 then ACTIONS[2] else ACTIONS[3], i);
    }
  }

  // ---- A value with bits under its mask ----

  /** Like TO_DEST_LOW, but the value also has a bit in the half that its mask keeps. */
  const DIRTY := Mangle(EthHdr, 4, 0xffff_0000, 0x0001_0100)
  const DIRTY_ACTIONS := [TO_DEST_HIGH, TO_SOURCE_HIGH, TO_SOURCE_LOW, DIRTY, Redirect(Some(1))]
  const DIRTY_RULE := Rule(0, MATCH, true, DIRTY_ACTIONS)

  lemma DirtyWindow()
    ensures EthWindow(DIRTY) == Some((4, [0, 1])) && DIRTY.val & 0xffff_0000 != 0
  {}

  lemma DirtyGathers()
    ensures var r := Gather(DIRTY_ACTIONS, KEY, Gathered(EMPTY_LINK, false));
            r.Ok? && r.value.link.outDev == Some(1) && r.value.link.eth[0] == 2 && r.value.link.eth[6] == 2 && r.value.link.eth[7] == 0
  {
    hide EthWindow, GatherOne;
    Windows();
    DirtyWindow();
    var g := Gathered(EMPTY_LINK, false);
    GatherMac(TO_DEST_HIGH, [TO_SOURCE_HIGH, TO_SOURCE_LOW, DIRTY, Redirect(Some(1))], g);
    var g1 := After(g, 0, [2, 0, 0, 0]);
    GatherMac(TO_SOURCE_HIGH, [TO_SOURCE_LOW, DIRTY, Redirect(Some(1))], g1);
    var g2 := After(g1, 6, [2, 0]);
    GatherMac(TO_SOURCE_LOW, [DIRTY, Redirect(Some(1))], g2);
    var g3 := After(g2, 8, [0, 0, 0, 2]);
    GatherMac(DIRTY, [Redirect(Some(1))], g3);
    assert DIRTY_ACTIONS == [TO_DEST_HIGH] + [TO_SOURCE_HIGH, TO_SOURCE_LOW, DIRTY, Redirect(Some(1))];
    assert [TO_SOURCE_HIGH] + [TO_SOURCE_LOW, DIRTY, Redirect(Some(1))] == [TO_SOURCE_HIGH, TO_SOURCE_LOW, DIRTY, Redirect(Some(1))];
    GatherRedirect(After(g3, 4, [0, 1]));
  }

  lemma DirtyParses()
    ensures Parsed(DIRTY_RULE).Ok? && Parsed(DIRTY_RULE).value.tuple == KEY
    ensures var eth := Parsed(DIRTY_RULE).value.link.eth; eth[6] == 2 && eth[7] == 0
  {
    hide Gather, Translate, ParseMatch;
    Matches();
    DirtyGathers();
    TranslatesNothing(DIRTY_ACTIONS, InitialData(KEY).rewritten);
    var eth := Gather(DIRTY_ACTIONS, KEY, Gathered(EMPTY_LINK, false)).value.link.eth;
    assert eth[6..][0] == 2 && eth[..6][0] == 2;
  }

  lemma DirtCons(a: Action, rest: seq<Action>, i: nat, d: bv8)
    ensures Dirt([a] + rest, i, d) == Dirt(rest, i, Dirt([a], i, d))
  {
    hide Covers, Residue, Xor8;
    assert ([a] + rest)[1..] == rest && [a][1..] == [];
  }

  lemma ByteSix()
    ensures !Covers(TO_DEST_HIGH, 6) && Residue(TO_DEST_HIGH, 6) == 0 && Covers(TO_SOURCE_HIGH, 6)
    ensures !Covers(TO_SOURCE_LOW, 6) && Residue(TO_SOURCE_LOW, 6) == 0
    ensures !Covers(DIRTY, 6) && Residue(DIRTY, 6) == 1 && Xor8(0, 0) == 0 && Xor8(0, 1) == 1
  {}

  /** The bit under the mask survives in the first byte of the source address. */
  lemma DirtyLeavesDirt()
    ensures Dirt(DIRTY_ACTIONS, 6, 0) == 1
  {
    hide Covers, Residue, Xor8;
    var tail := [Redirect(Some(1))];
    ByteSix();
    DirtOfOne(TO_DEST_HIGH, 6, 0);
    DirtCons(TO_DEST_HIGH, [TO_SOURCE_HIGH] + ([TO_SOURCE_LOW] + ([DIRTY] + tail)), 6, 0);
    DirtOfOne(TO_SOURCE_HIGH, 6, 0);
    DirtCons(TO_SOURCE_HIGH, [TO_SOURCE_LOW] + ([DIRTY] + tail), 6, 0);
    DirtOfOne(TO_SOURCE_LOW, 6, 0);
    DirtCons(TO_SOURCE_LOW, [DIRTY] + tail, 6, 0);
    DirtOfOne(DIRTY, 6, 0);
    DirtCons(DIRTY, tail, 6, 0);
    DirtOfRedirect();
    assert DIRTY_ACTIONS == [TO_DEST_HIGH] + ([TO_SOURCE_HIGH] + ([TO_SOURCE_LOW] + ([DIRTY] + tail)));
  }

  lemma DirtOfRedirect()
    ensures Dirt([Redirect(Some(1))], 6, 1) == 1
  {
    DirtOfOne(Redirect(Some(1)), 6, 1);
  }

  /** An accepted rule whose mangles cover both addresses but that is not settled: the parsed rewrite differs from
      the edits on every packet of the flow. */
  lemma DirtyRuleDiffers(p: Packet)
    requires Hits(p, KEY)
    ensures Parsed(DIRTY_RULE).Ok? && Covered(DIRTY_ACTIONS) && !Settled(DIRTY_ACTIONS)
    ensures Rewrite(Parsed(DIRTY_RULE).value, p) != Apply(DIRTY_ACTIONS, p)
  {
    hide Parsed, Apply, EthWindow, Dirt, Xor8, Residue;
    DirtyParses();
    Windows();
    DirtyWindow();
    var a := DIRTY_ACTIONS;
    assert a[0] in a && a[1] in a && a[2] in a && a[3] in a;
    forall i | 0 <= i < 12 ensures CoveredAt(a, i) {
      assert Covers(if i < 4 then a[0] else if i < 6 then a[3] else if i < 8 then a[1] else a[2], i);
    }
    DirtyLeavesDirt();
    ParsedMacs(DIRTY_RULE, p);
    var eth := Parsed(DIRTY_RULE).value.link.eth;
    XorLaws(eth[6], 1, 0);
    assert Rewrite(Parsed(DIRTY_RULE).value, p).eth[6] == eth[6] != Apply(a, p).eth[6];
  }
}
