/** Which rules the parser accepts, and what it then keeps of them, stated on the rule itself. */
module Acceptance {
  import opened Wire
  import opened Flow
  import opened Pedit

  // ---- The match ----

  /** An exact 5-tuple: one family with full masks, TCP with RST and FIN excluded or UDP without TCP flags. */
  predicate ExactTuple(m: Match) {
    && m.usedKeys <= {Meta, Control, Basic, Ipv4Addrs, Ipv6Addrs, Ports, Tcp}
    && {Meta, Control, Basic, Ports} <= m.usedKeys
    && !m.metaMasked && !m.controlMasked && m.addrTypeMask == 0xffff
    && m.nProtoMask == 0xffff && m.ipProtoMask == 0xff && m.srcPortMask == 0xffff && m.dstPortMask == 0xffff
    && (|| (m.nProto == HTONS_IP && m.addrType == Ipv4Addrs && m.srcMask.w0 == m.dstMask.w0 == 0xffff_ffff)
        || (m.nProto == HTONS_IPV6 && m.addrType == Ipv6Addrs && m.srcMask == m.dstMask == ALL_ONES))
    && m.addrType in m.usedKeys
    && (|| (m.ipProto == IPPROTO_TCP && Tcp in m.usedKeys && m.tcpFlags == 0 && m.tcpFlagsMask == HTONS_RST_FIN)
        || (m.ipProto == IPPROTO_UDP && Tcp !in m.usedKeys))
  }

  /** The match parser accepts exactly the exact 5-tuples, gives their key, and refuses all else as unsupported. */
  lemma MatchAccepted(m: Match)
    ensures ParseMatch(m).Ok? <==> ExactTuple(m)
    ensures ParseMatch(m).Err? ==> ParseMatch(m).error == EOPNOTSUPP
    ensures ExactTuple(m) ==>
              var key := ParseMatch(m).value;
              && key.nProto == m.nProto && key.ipProto == m.ipProto && key.srcPort == m.srcPort && key.dstPort == m.dstPort
              && (m.nProto == HTONS_IPV6 ==> key.src == m.src && key.dst == m.dst)
              && (m.nProto == HTONS_IP ==> key.src == Addr(m.src.w0, 0, 0, 0) && key.dst == Addr(m.dst.w0, 0, 0, 0))
  {}

  // ---- The actions, one by one ----

  predicate IsRedirect(a: Action) { a.Redirect? }
  predicate IsCsum(a: Action) { a.CsumUpdate? }
  predicate IsPush(a: Action) { a.VlanPush? }
  predicate IsPop(a: Action) { a.VlanPop? }
  predicate IsPppoe(a: Action) { a.PppoePush? }

  /** Offsets and masks of the Ethernet mangles that the driver takes. */
  predicate EthMangleOk(a: Action)
    requires a.Mangle?
  {
    || ((a.offset == 0 || a.offset == 8) && a.mask == 0)
    || (a.offset == 4 && (a.mask == 0xffff_0000 || a.mask == 0x0000_ffff))
  }

  /** What the first pass asks of an action alone. */
  predicate GatherOk(a: Action, key: Key) {
    match a
    case Mangle(htype, _, _, _) => htype == EthHdr ==> EthMangleOk(a)
    case Redirect(dev) => dev.Some?
    case CsumUpdate(flags) => CsumOk(flags, key)
    case OtherAction => false
    case _ => true
  }

  predicate CsumOk(flags: set<Csum>, key: Key) {
    forall f :: f in flags ==>
      (f == Ipv4Csum && key.nProto == HTONS_IP) || (f == TcpCsum && key.ipProto == IPPROTO_TCP)
      || (f == UdpCsum && key.ipProto != IPPROTO_TCP)
  }

  /** What the second pass asks of an action alone. */
  predicate TranslateOk(a: Action, key: Key) {
    a.Mangle? ==>
      match a.htype
      case EthHdr => true
      case Ip4Hdr => key.nProto == HTONS_IP && a.mask == 0 && (a.offset == 12 || a.offset == 16)
      case TcpHdr => key.ipProto == IPPROTO_TCP && a.offset == 0 && (a.mask == 0xffff_0000 || a.mask == 0x0000_ffff)
      case UdpHdr => key.ipProto == IPPROTO_UDP && a.offset == 0 && (a.mask == 0xffff_0000 || a.mask == 0x0000_ffff)
      case _ => false
  }

  /** At most one action of a kind, and none if there was one before. */
  ghost predicate Once(acts: seq<Action>, kind: Action -> bool, before: bool) {
    && (forall i :: 0 <= i < |acts| && kind(acts[i]) ==> !before)
    && (forall i, j :: 0 <= i < j < |acts| && kind(acts[i]) ==> !kind(acts[j]))
  }

  ghost predicate Any(acts: seq<Action>, kind: Action -> bool) { exists i :: 0 <= i < |acts| && kind(acts[i]) }

  lemma OnceCons(acts: seq<Action>, kind: Action -> bool, before: bool)
    requires acts != []
    ensures Once(acts, kind, before) <==> (kind(acts[0]) ==> !before) && Once(acts[1..], kind, before || kind(acts[0]))
    ensures Any(acts, kind) <==> kind(acts[0]) || Any(acts[1..], kind)
  {
    var rest := acts[1..];
    assert forall i :: 1 <= i < |acts| ==> acts[i] == rest[i - 1];
    assert forall i :: 0 <= i < |rest| ==> rest[i] == acts[i + 1];
    if (kind(acts[0]) ==> !before) && Once(rest, kind, before || kind(acts[0])) {
      forall i, j | 0 <= i < j < |acts| && kind(acts[i]) ensures !kind(acts[j]) {
        assert acts[j] == rest[j - 1];
      }
    }
    if Any(rest, kind) {
      var i :| 0 <= i < |rest| && kind(rest[i]);
      assert kind(acts[i + 1]);
    }
  }

  /** Each kind of topology or encapsulation action occurs at most once. */
  ghost predicate OnceEach(acts: seq<Action>, g: Gathered) {
    && Once(acts, IsRedirect, g.link.outDev.Some?) && Once(acts, IsCsum, g.csumSeen) && Once(acts, IsPush, g.link.vlan.push)
    && Once(acts, IsPop, g.link.vlan.pop) && Once(acts, IsPppoe, g.link.pppoe.push)
  }

  /** What one action leaves in the link-layer data. */
  ghost predicate Recorded(a: Action, before: Link, after: Link) {
    && after.outDev == (if a.Redirect? then a.dev else before.outDev)
    && after.vlan.push == (before.vlan.push || a.VlanPush?) && after.vlan.pop == (before.vlan.pop || a.VlanPop?)
    && (after.vlan.proto, after.vlan.vid, after.vlan.prio)
       == (if a.VlanPush? then (a.proto, a.vid, a.prio) else (before.vlan.proto, before.vlan.vid, before.vlan.prio))
    && after.pppoe == (if a.PppoePush? then Pppoe(true, a.sid) else before.pppoe)
  }

  lemma GatherOneAccepted(a: Action, key: Key, g: Gathered)
    ensures GatherOne(a, key, g).Ok? <==>
              && GatherOk(a, key)
              && (a.Redirect? ==> g.link.outDev.None?) && (a.CsumUpdate? ==> !g.csumSeen) && (a.VlanPush? ==> !g.link.vlan.push)
              && (a.VlanPop? ==> !g.link.vlan.pop) && (a.PppoePush? ==> !g.link.pppoe.push)
    ensures GatherOne(a, key, g).Err? ==> GatherOne(a, key, g).error == EOPNOTSUPP
    ensures GatherOne(a, key, g).Ok? ==>
              && Recorded(a, g.link, GatherOne(a, key, g).value.link)
              && GatherOne(a, key, g).value.csumSeen == (g.csumSeen || a.CsumUpdate?)
  {
    hide Splice, Byte0, Byte1, Byte2, Byte3;
    if a.CsumUpdate? { CsumAccepted(a.flags, key); }
  }

  lemma CsumAccepted(flags: set<Csum>, key: Key)
    ensures flags <= SupportedCsums(key) <==> CsumOk(flags, key)
  {}

  /** The first pass accepts exactly the lists of supported actions that have each kind at most once. */
  lemma {:induction false} GatherAccepted(acts: seq<Action>, key: Key, g: Gathered)
    ensures Gather(acts, key, g).Ok? <==> (forall a :: a in acts ==> GatherOk(a, key)) && OnceEach(acts, g)
    ensures Gather(acts, key, g).Err? ==> Gather(acts, key, g).error == EOPNOTSUPP
  {
    hide GatherOne, GatherOk, Once;
    if acts == [] {
      OnceNone(IsRedirect, g.link.outDev.Some?); OnceNone(IsCsum, g.csumSeen); OnceNone(IsPush, g.link.vlan.push);
      OnceNone(IsPop, g.link.vlan.pop); OnceNone(IsPppoe, g.link.pppoe.push);
    } else {
      var a, rest := acts[0], acts[1..];
      GatherOneAccepted(a, key, g);
      OnceCons(acts, IsRedirect, g.link.outDev.Some?); OnceCons(acts, IsCsum, g.csumSeen); OnceCons(acts, IsPush, g.link.vlan.push);
      OnceCons(acts, IsPop, g.link.vlan.pop); OnceCons(acts, IsPppoe, g.link.pppoe.push);
      assert acts == [a] + rest;
      if GatherOne(a, key, g).Ok? {
        assert a.Redirect? ==> a.dev.Some? by { RedirectHasDevice(a, key); }
        GatherAccepted(rest, key, GatherOne(a, key, g).value);
      }
    }
  }

  lemma RedirectHasDevice(a: Action, key: Key)
    ensures a.Redirect? && GatherOk(a, key) ==> a.dev.Some?
  {}

  lemma OnceNone(kind: Action -> bool, before: bool)
    ensures Once([], kind, before) && !Any([], kind)
  {}

  // ---- What the first pass keeps ----

  /** Every encapsulation and redirect action of the list is recorded as given, and nothing else is. */
  ghost predicate Kept(acts: seq<Action>, before: Link, after: Link) {
    && (forall a :: a in acts && a.Redirect? ==> after.outDev == a.dev)
    && (!Any(acts, IsRedirect) ==> after.outDev == before.outDev)
    && (forall a :: a in acts && a.VlanPush? ==>
          after.vlan.push && after.vlan.proto == a.proto && after.vlan.vid == a.vid && after.vlan.prio == a.prio)
    && (!Any(acts, IsPush) ==> after.vlan.push == before.vlan.push)
    && (before.vlan.push && !Any(acts, IsPush) ==>
          after.vlan.proto == before.vlan.proto && after.vlan.vid == before.vlan.vid && after.vlan.prio == before.vlan.prio)
    && (after.vlan.pop <==> before.vlan.pop || Any(acts, IsPop))
    && (forall a :: a in acts && a.PppoePush? ==> after.pppoe == Pppoe(true, a.sid))
    && (!Any(acts, IsPppoe) ==> after.pppoe == before.pppoe)
  }

  lemma {:induction false} GatherKeeps(acts: seq<Action>, key: Key, g: Gathered)
    requires Gather(acts, key, g).Ok?
    ensures Kept(acts, g.link, Gather(acts, key, g).value.link)
  {
    hide GatherOne, GatherOk, Once;
    if acts == [] {
      OnceNone(IsRedirect, false); OnceNone(IsPush, false); OnceNone(IsPop, false); OnceNone(IsPppoe, false);
    } else {
      var a, rest, g' := acts[0], acts[1..], GatherOne(acts[0], key, g).value;
      GatherOneAccepted(a, key, g);
      GatherAccepted(acts, key, g);
      GatherKeeps(rest, key, g');
      assert acts == [a] + rest;
      OnceCons(acts, IsRedirect, g.link.outDev.Some?); OnceCons(acts, IsPush, g.link.vlan.push);
      OnceCons(acts, IsPop, g.link.vlan.pop); OnceCons(acts, IsPppoe, g.link.pppoe.push);
      if a.Redirect? { OnceBefore(rest, IsRedirect); }
      if a.VlanPush? { OnceBefore(rest, IsPush); }
      if a.PppoePush? { OnceBefore(rest, IsPppoe); }
    }
  }

  /** After one of its kind there is no other. */
  lemma OnceBefore(acts: seq<Action>, kind: Action -> bool)
    ensures Once(acts, kind, true) ==> !Any(acts, kind) && forall a :: a in acts ==> !kind(a)
  {}

  /** MAC byte i after the list: the last byte written to it, or b. */
  function MacByte(acts: seq<Action>, i: nat, b: bv8): bv8 {
    if acts == [] then b
    else
      var a := acts[0];
      MacByte(acts[1..], i, if Covers(a, i) && a.offset <= i < a.offset + 4 then ByteOf(a.val, i - a.offset) else b)
  }

  lemma {:induction false} GatherMacs(acts: seq<Action>, key: Key, g: Gathered, i: nat)
    requires Gather(acts, key, g).Ok? && i < 12
    ensures Gather(acts, key, g).value.link.eth[i] == MacByte(acts, i, g.link.eth[i])
  {
    hide Covers, ByteOf, GatherOne;
    if acts != [] {
      GatherOneMac(acts[0], key, g, i);
      GatherMacs(acts[1..], key, GatherOne(acts[0], key, g).value, i);
    }
  }

  lemma GatherOneMac(a: Action, key: Key, g: Gathered, i: nat)
    requires GatherOne(a, key, g).Ok? && i < 12
    ensures GatherOne(a, key, g).value.link.eth[i]
            == if Covers(a, i) && a.offset <= i < a.offset + 4 then ByteOf(a.val, i - a.offset) else g.link.eth[i]
  {
    hide ByteOf;
    if a.Mangle? && a.htype == EthHdr {
      MangledWindow(a, g.link.eth);
      WindowByte(a, i);
    }
  }

  // ---- The second pass ----

  lemma TranslateOneAccepted(a: Action, key: Key, n: Nat)
    ensures TranslateOne(a, key, n).Ok? <==> TranslateOk(a, key)
    ensures TranslateOne(a, key, n).Err? ==> TranslateOne(a, key, n).error == EOPNOTSUPP
  {
    hide Swap32, Swap16, Hi16, Lo16;
    PortMasks();
  }

  lemma {:induction false} TranslateAccepted(acts: seq<Action>, key: Key, n: Nat)
    ensures Translate(acts, key, n).Ok? <==> forall a :: a in acts ==> TranslateOk(a, key)
    ensures Translate(acts, key, n).Err? ==> Translate(acts, key, n).error == EOPNOTSUPP
  {
    hide TranslateOne, TranslateOk;
    if acts != [] {
      assert acts == [acts[0]] + acts[1..];
      TranslateOneAccepted(acts[0], key, n);
      if TranslateOne(acts[0], key, n).Ok? {
        TranslateAccepted(acts[1..], key, TranslateOne(acts[0], key, n).value);
      }
    }
  }

  // ---- The whole rule ----

  predicate KeyIs(m: Match, key: Key) { key.nProto == m.nProto && key.ipProto == m.ipProto }

  /** Supported actions, at most one of each kind, and a redirect among them. */
  ghost predicate ActionsOk(acts: seq<Action>, key: Key) {
    && (forall a :: a in acts ==> GatherOk(a, key) && TranslateOk(a, key))
    && OnceEach(acts, Gathered(EMPTY_LINK, false)) && Any(acts, IsRedirect)
  }

  /** The address written from byte `at` on is neither a group address nor zero. */
  ghost predicate UnicastFrom(acts: seq<Action>, at: nat) {
    MacByte(acts, at, 0) & 1 == 0 && exists i :: at <= i < at + 6 && MacByte(acts, i, 0) != 0
  }

  ghost predicate Supported(rule: Rule, key: Key) {
    rule.chain == 0 && ExactTuple(rule.flow) && rule.actions != [] && rule.hwStatsOk && ActionsOk(rule.actions, key)
  }

  /** The generic half of a replace accepts exactly the supported rules that write two unicast addresses; an empty
      action list and other addresses are invalid, everything else is unsupported. */
  lemma RuleAccepted(rule: Rule, key: Key)
    requires KeyIs(rule.flow, key)
    ensures Parsed(rule).Ok? <==> Supported(rule, key) && UnicastFrom(rule.actions, 0) && UnicastFrom(rule.actions, 6)
    ensures Parsed(rule).Err? ==>
              Parsed(rule).error ==
              if Supported(rule, key) || (rule.chain == 0 && ExactTuple(rule.flow) && rule.actions == []) then EINVAL else EOPNOTSUPP
  {
    hide ParseMatch, Gather, Translate, ExactTuple, GatherOk, TranslateOk, OnceEach, UnicastFrom, ValidEtherAddr;
    MatchAccepted(rule.flow);
    if rule.chain == 0 && ExactTuple(rule.flow) && rule.actions != [] && rule.hwStatsOk {
      var acts, tuple, g := rule.actions, ParseMatch(rule.flow).value, Gathered(EMPTY_LINK, false);
      SameFamily(acts, tuple, key);
      GatherAccepted(acts, tuple, g);
      if Gather(acts, tuple, g).Ok? {
        GatherKeeps(acts, tuple, g);
        RedirectRecorded(acts, tuple);
        TranslateAccepted(acts, tuple, InitialData(tuple).rewritten);
        AddressesUnicast(acts, tuple);
      }
    }
  }

  lemma SameFamily(acts: seq<Action>, a: Key, b: Key)
    requires a.nProto == b.nProto && a.ipProto == b.ipProto
    ensures (forall x :: x in acts ==> GatherOk(x, a)) <==> (forall x :: x in acts ==> GatherOk(x, b))
    ensures (forall x :: x in acts ==> TranslateOk(x, a)) <==> (forall x :: x in acts ==> TranslateOk(x, b))
  {
    forall x ensures GatherOk(x, a) == GatherOk(x, b) && TranslateOk(x, a) == TranslateOk(x, b) {}
  }

  lemma RedirectRecorded(acts: seq<Action>, key: Key)
    requires Gather(acts, key, Gathered(EMPTY_LINK, false)).Ok?
    ensures Gather(acts, key, Gathered(EMPTY_LINK, false)).value.link.outDev.Some? <==> Any(acts, IsRedirect)
  {
    hide Gather, GatherOk, OnceEach;
    GatherAccepted(acts, key, Gathered(EMPTY_LINK, false));
    GatherKeeps(acts, key, Gathered(EMPTY_LINK, false));
    if Any(acts, IsRedirect) {
      var i :| 0 <= i < |acts| && IsRedirect(acts[i]);
      assert acts[i] in acts;
      RedirectHasDevice(acts[i], key);
    }
  }

  lemma AddressesUnicast(acts: seq<Action>, key: Key)
    requires Gather(acts, key, Gathered(EMPTY_LINK, false)).Ok?
    ensures var eth := Gather(acts, key, Gathered(EMPTY_LINK, false)).value.link.eth;
            (ValidEtherAddr(eth[..6]) <==> UnicastFrom(acts, 0)) && (ValidEtherAddr(eth[6..]) <==> UnicastFrom(acts, 6))
  {
    hide Gather, MacByte;
    var eth := Gather(acts, key, Gathered(EMPTY_LINK, false)).value.link.eth;
    forall i | 0 <= i < 12 ensures eth[i] == MacByte(acts, i, 0) { GatherMacs(acts, key, Gathered(EMPTY_LINK, false), i); }
    Unicast(eth[..6]);
    Unicast(eth[6..]);
    assert forall i :: 0 <= i < 6 ==> eth[..6][i] == eth[i] && eth[6..][i] == eth[6 + i];
  }

  lemma Unicast(m: Bytes)
    requires |m| == 6
    ensures ValidEtherAddr(m) <==> m[0] & 1 == 0 && exists i :: 0 <= i < 6 && m[i] != 0
  {}

  /** What parsing keeps of an accepted rule: its one push, pop, PPPoE session and redirect as they were given, and
      for each MAC byte the last one written. */
  lemma ParsedLink(rule: Rule)
    requires Parsed(rule).Ok?
    ensures var acts, link := rule.actions, Parsed(rule).value.link;
            && (forall a :: a in acts && a.VlanPush? ==>
                  link.vlan.push && link.vlan.proto == a.proto && link.vlan.vid == a.vid && link.vlan.prio == a.prio)
            && (link.vlan.push <==> Any(acts, IsPush)) && (link.vlan.pop <==> Any(acts, IsPop))
            && (forall a :: a in acts && a.PppoePush? ==> link.pppoe == Pppoe(true, a.sid))
            && (link.pppoe.push <==> Any(acts, IsPppoe))
            && (forall a :: a in acts && a.Redirect? ==> link.outDev == a.dev && a.dev.Some?)
            && Any(acts, IsRedirect) && Once(acts, IsRedirect, false)
            && (forall i :: 0 <= i < 12 ==> link.eth[i] == MacByte(acts, i, 0))
  {
    hide Gather, Translate, GatherOk, MacByte, Once;
    PartsOfParsed(rule);
    var acts, key, g := rule.actions, Parsed(rule).value.tuple, Gathered(EMPTY_LINK, false);
    GatherAccepted(acts, key, g);
    GatherKeeps(acts, key, g);
    RedirectRecorded(acts, key);
    KindIn(acts, IsPush);
    KindIn(acts, IsPppoe);
    forall a | a in acts && a.Redirect? ensures a.dev.Some? { RedirectHasDevice(a, key); }
    forall i | 0 <= i < 12 ensures Parsed(rule).value.link.eth[i] == MacByte(acts, i, 0) { GatherMacs(acts, key, g, i); }
    HasDevice(rule);
  }

  lemma HasDevice(rule: Rule)
    requires Parsed(rule).Ok?
    ensures Parsed(rule).value.link.outDev.Some?
  {}

  lemma KindIn(acts: seq<Action>, kind: Action -> bool)
    ensures Any(acts, kind) ==> exists a :: a in acts && kind(a)
  {
    if Any(acts, kind) {
      var i :| 0 <= i < |acts| && kind(acts[i]);
      assert acts[i] in acts;
    }
  }
}
