/** What a transmit ring means: a growing log of packets, of which a prefix has been cleaned. */
module TxFifo {
  import opened Wire
  import opened TxDesc

  const RING: nat := 128
  const STOP_RESERVE: nat := 16
  const WAKE_THRESH: nat := 16

  /** `sent` are the packets ever queued, `cleaned` how many of their descriptors were cleaned since the rings
      were programmed. `live` are the DMA mappings in force; `woken` says that the queue was woken (or opened)
      and nothing was queued since; the byte counts are those reported to the queue limits. */
  datatype Tx = Tx(
    sent: seq<Sent>, cleaned: nat, live: multiset<Seg>, completed: seq<Skb>,
    stopped: bool, woken: bool, sentBytes: nat, packets: nat, bytes: nat, ringFull: nat)

  const EMPTY := Tx([], 0, multiset{}, [], false, true, 0, 0, 0, 0)

  /** The descriptors of the packets one after another. */
  function Log(sent: seq<Sent>): seq<Slot> {
    if sent == [] then [] else Log(sent[..|sent| - 1]) + Pack(sent[|sent| - 1])
  }

  function Skbs(sent: seq<Sent>): seq<Skb> {
    if sent == [] then [] else Skbs(sent[..|sent| - 1]) + [sent[|sent| - 1].skb]
  }

  function TotalLen(skbs: seq<Skb>): nat {
    if skbs == [] then 0 else TotalLen(skbs[..|skbs| - 1]) + skbs[|skbs| - 1].len
  }

  /** Descriptors queued and not yet cleaned. */
  function InFlight(s: Tx): int { |Log(s.sent)| - s.cleaned }

  /** The ring index of a descriptor's running number. */
  function Pos(k: nat): (i: nat)
    ensures i < RING
  {
    k % RING
  }

  lemma PosAdd(n: nat, k: nat)
    ensures (Pos(n) + k) % RING == Pos(n + k)
  {}

  /** The number up to which an index read from hardware says that descriptors were sent. */
  function Target(cleaned: nat, dtx: nat): nat { cleaned + (dtx - Pos(cleaned)) % RING }

  lemma PosOfTarget(cleaned: nat, dtx: nat)
    requires dtx < RING
    ensures Pos(Target(cleaned, dtx)) == dtx && cleaned <= Target(cleaned, dtx) < cleaned + RING
  {}

  lemma PosWraps(k: nat)
    ensures Pos(k + RING) == Pos(k)
  {}

  /** Within one turn of the ring, distinct numbers have distinct places. */
  lemma PosApart(from: nat, a: nat, b: nat)
    requires from <= a < from + RING && from <= b < from + RING && a != b
    ensures Pos(a) != Pos(b)
  {}

  /** The masked 16-bit subtraction of the driver; Dafny's % agrees with a two's-complement mask. */
  function Avail(clean: nat, cpu: nat): nat { (clean - cpu - STOP_RESERVE) % RING }

  ghost predicate Inv(s: Tx) {
    && (forall i :: 0 <= i < |s.sent| ==> ValidSent(s.sent[i]))
    && 0 <= InFlight(s) <= RING - STOP_RESERVE
    && s.live == multiset(Segments(Log(s.sent)[s.cleaned..]))
    && s.completed == Completions(Log(s.sent)[..s.cleaned])
    && s.packets == |s.completed| && s.bytes == TotalLen(s.completed)
    && s.sentBytes == TotalLen(Skbs(s.sent))
    && (s.stopped ==> InFlight(s) > RING - STOP_RESERVE - WAKE_THRESH)
    && (s.woken ==> InFlight(s) <= RING - STOP_RESERVE - WAKE_THRESH)
  }

  // ---- Ring arithmetic ----

  /** The masked difference is the true room exactly while the reserve is respected; beyond, it wraps. */
  lemma AvailIsRoom(cleaned: nat, cpu: nat)
    requires 0 <= cpu - cleaned < RING
    ensures Avail(Pos(cleaned), Pos(cpu)) == RING - STOP_RESERVE - (cpu - cleaned) <==> cpu - cleaned <= RING - STOP_RESERVE
  {}

  lemma RoomOf(s: Tx)
    requires 0 <= InFlight(s) <= RING - STOP_RESERVE
    ensures Avail(Pos(s.cleaned), Pos(|Log(s.sent)|)) == RING - STOP_RESERVE - InFlight(s)
  {
    AvailIsRoom(s.cleaned, |Log(s.sent)|);
  }

  // ---- Sending ----

  datatype Verdict = Busy | Dropped | Queued

  /** A send: refused and the queue stopped for lack of room, dropped when a mapping fails, or queued. */
  function Xmit(s: Tx, x: Sent, mapped: bool): (Tx, Verdict) {
    if Avail(Pos(s.cleaned), Pos(|Log(s.sent)|)) < Needed(|x.segs|) then
      (s.(stopped := true, ringFull := s.ringFull + 1), Busy)
    else if !mapped then (s, Dropped)
    else (Queue(s, x), Queued)
  }

  function Queue(s: Tx, x: Sent): Tx {
    s.(sent := s.sent + [x], live := s.live + multiset(x.segs), woken := false, sentBytes := s.sentBytes + x.skb.len)
  }

  lemma SentGrows(s: Tx, x: Sent)
    ensures Log(s.sent + [x]) == Log(s.sent) + Pack(x)
    ensures TotalLen(Skbs(s.sent + [x])) == TotalLen(Skbs(s.sent)) + x.skb.len
  {
    assert (s.sent + [x])[..|s.sent|] == s.sent;
    assert (Skbs(s.sent) + [x.skb])[..|Skbs(s.sent)|] == Skbs(s.sent);
  }

  lemma QueueKeepsInv(s: Tx, x: Sent)
    requires Inv(s) && ValidSent(x) && InFlight(s) + |Pack(x)| <= RING - STOP_RESERVE
    ensures Inv(Queue(s, x))
  {
    hide Log, Segments, Completions, TotalLen, Skbs, Pack;
    SentGrows(s, x);
    PackRoundTrip(x, []);
    assert (Log(s.sent) + Pack(x))[s.cleaned..] == Log(s.sent)[s.cleaned..] + Pack(x);
    assert (Log(s.sent) + Pack(x))[..s.cleaned] == Log(s.sent)[..s.cleaned];
    SegmentsConcat(Log(s.sent)[s.cleaned..], Pack(x));
  }

  /** A queued packet fits: with it, the reserve is still respected. */
  lemma QueuedFits(s: Tx, x: Sent, mapped: bool)
    requires Inv(s)
    ensures Xmit(s, x, mapped).1 != Busy <==> InFlight(s) + |Pack(x)| <= RING - STOP_RESERVE
  {
    hide Log;
    RoomOf(s);
  }

  lemma XmitKeepsInv(s: Tx, x: Sent, mapped: bool)
    requires Inv(s) && ValidSent(x)
    ensures Inv(Xmit(s, x, mapped).0)
  {
    hide Log, Segments, Completions, TotalLen, Skbs, Queue;
    RoomOf(s);
    if InFlight(s) + |Pack(x)| <= RING - STOP_RESERVE {
      QueueKeepsInv(s, x);
    }
  }

  /** What a send answers, and what it changes: refused exactly when its descriptors do not fit into the 112, which
      stops the queue; queued exactly when they fit and everything was mapped, which alone takes the packet in. */
  lemma SendMeans(s: Tx, x: Sent, mapped: bool)
    requires Inv(s)
    ensures var (t, v) := Xmit(s, x, mapped);
            var fits, queued := InFlight(s) + (|x.segs| + 1) / 2 <= 112, v == Queued;
            && (v == Busy <==> !fits) && (queued <==> fits && mapped)
            && t.sent == (if queued then s.sent + [x] else s.sent) && t.sentBytes == s.sentBytes + (if queued then x.skb.len else 0)
            && t.live == (if queued then s.live + multiset(x.segs) else s.live) && t.woken == (s.woken && !queued)
            && t.stopped == (s.stopped || v == Busy) && t.ringFull == s.ringFull + (if v == Busy then 1 else 0)
            && t.cleaned == s.cleaned && t.completed == s.completed && t.packets == s.packets && t.bytes == s.bytes
  {
    hide Log, Avail, Inv;
    QueuedFits(s, x, mapped);
  }

  /** A packet of at most 32 segments is never refused while the queue was woken and nothing queued since. */
  lemma WokenQueueAccepts(s: Tx, x: Sent, mapped: bool)
    requires Inv(s) && ValidSent(x) && s.woken
    ensures Xmit(s, x, mapped).1 != Busy
  {
    RoomOf(s);
  }

  // ---- Cleaning ----

  /** How far a clean gets: to the hardware index, or just past the packet that exhausts the budget. */
  function Reach(log: seq<Slot>, from: nat, to: nat, budget: nat): (r: nat)
    requires from <= to <= |log|
    ensures from <= r <= to
    decreases (to as int) - from
  {
    if from == to || budget == 0 then from
    else Reach(log, from + 1, to, if IsLast(log[from]) && log[from].skb.Some? then budget - 1 else budget)
  }

  /** A clean cleans whole descriptors up to `to`, or stops with exactly its budget of packets completed;
      it may stop within a packet only at the hardware index. */
  lemma {:induction false} ReachSpec(log: seq<Slot>, from: nat, to: nat, budget: nat)
    requires from <= to <= |log|
    ensures |Completions(log[from..Reach(log, from, to, budget)])| <= budget
    ensures Reach(log, from, to, budget) < to ==> |Completions(log[from..Reach(log, from, to, budget)])| == budget
    decreases (to as int) - from
  {
    var r := Reach(log, from, to, budget);
    if from < to && budget > 0 {
      var done := IsLast(log[from]) && log[from].skb.Some?;
      ReachSpec(log, from + 1, to, if done then budget - 1 else budget);
      assert log[from..r] == [log[from]] + log[from + 1..r];
      CompletionsConcat([log[from]], log[from + 1..r]);
      assert [log[from]][..0] == [];
    }
  }

  /** The state after cleaning up to descriptor r. */
  function CleanedTo(s: Tx, r: nat): Tx
    requires s.cleaned <= r <= |Log(s.sent)|
  {
    var done := Log(s.sent)[s.cleaned..r];
    s.(cleaned := r, live := s.live - multiset(Segments(done)), completed := s.completed + Completions(done),
       packets := s.packets + |Completions(done)|, bytes := s.bytes + TotalLen(Completions(done)))
  }

  /** A stopped queue is woken once enough room has come free. */
  function Woken(s: Tx): Tx {
    if s.stopped && Avail(Pos(s.cleaned), Pos(|Log(s.sent)|)) >= WAKE_THRESH then s.(stopped := false, woken := true) else s
  }

  lemma CleanedStill(s: Tx, r: nat)
    requires 0 <= InFlight(s) <= RING - STOP_RESERVE && s.cleaned <= r <= |Log(s.sent)|
    ensures var t := CleanedTo(s, r);
            0 <= InFlight(t) <= RING - STOP_RESERVE && t.stopped == s.stopped && t.woken == s.woken
            && t.packets == s.packets + |Completions(Log(s.sent)[s.cleaned..r])|
  {
    hide Log, Completions, Segments, TotalLen;
  }

  /** A queue is stopped after a clean exactly if it was and more than 96 descriptors are still in flight. */
  lemma WokenMeans(s: Tx)
    requires 0 <= InFlight(s) <= RING - STOP_RESERVE
    ensures Woken(s).stopped == (s.stopped && InFlight(s) > 96)
    ensures Woken(s).woken == (s.woken || (s.stopped && InFlight(s) <= 96))
    ensures Woken(s).(stopped := s.stopped, woken := s.woken) == s
  {
    hide Log;
    RoomOf(s);
  }

  function Clean(s: Tx, to: nat, budget: nat): Tx
    requires s.cleaned <= to <= |Log(s.sent)|
  {
    Woken(CleanedTo(s, Reach(Log(s.sent), s.cleaned, to, budget)))
  }

  lemma FirstSegments(log: seq<Slot>, c: nat)
    requires c < |log|
    ensures Segments(log[c..]) == log[c].segs + Segments(log[c + 1..])
  {
    assert log[c..] == [log[c]] + log[c + 1..];
    SegmentsConcat([log[c]], log[c + 1..]);
    assert [log[c]][..0] == [];
  }

  /** One more descriptor cleaned: the packet it completes, if any, is the next one released. */
  lemma NextCompletion(log: seq<Slot>, c: nat, r: nat)
    requires c <= r < |log|
    ensures var done := IsLast(log[r]) && log[r].skb.Some?;
            && Completions(log[c..r + 1]) == Completions(log[c..r]) + (if done then [log[r].skb.value] else [])
            && TotalLen(Completions(log[c..r + 1])) == TotalLen(Completions(log[c..r])) + (if done then log[r].skb.value.len else 0)
  {
    hide TotalLen;
    var done := log[c..r + 1];
    assert done[..|done| - 1] == log[c..r] && done[|done| - 1] == log[r];
    if IsLast(log[r]) && log[r].skb.Some? {
      TotalLenOfNext(Completions(log[c..r]), log[r].skb.value);
    } else {
      assert Completions(log[c..r]) + [] == Completions(log[c..r]);
    }
  }

  lemma TotalLenOfNext(skbs: seq<Skb>, skb: Skb)
    ensures TotalLen(skbs + [skb]) == TotalLen(skbs) + skb.len
  {
    assert (skbs + [skb])[..|skbs|] == skbs;
  }

  /** Packets sit on exactly the descriptors that carry a last-segment mark. */
  lemma {:induction false} MarksOfLog(sent: seq<Sent>, k: nat)
    requires k < |Log(sent)|
    requires forall i :: 0 <= i < |sent| ==> ValidSent(sent[i])
    ensures IsLast(Log(sent)[k]) <==> Log(sent)[k].skb.Some?
  {
    var n := |sent| - 1;
    if k < |Log(sent[..n])| {
      MarksOfLog(sent[..n], k);
    } else {
      PackRoundTrip(sent[n], []);
      assert Log(sent)[k] == Pack(sent[n])[k - |Log(sent[..n])|];
    }
  }

  lemma {:induction false} TotalLenConcat(a: seq<Skb>, b: seq<Skb>)
    ensures TotalLen(a + b) == TotalLen(a) + TotalLen(b)
  {
    if b == [] {
      assert a + b == a;
    } else {
      assert (a + b)[..|a + b| - 1] == a + b[..|b| - 1];
      TotalLenConcat(a, b[..|b| - 1]);
    }
  }

  lemma CleanedToKeepsAccounts(s: Tx, r: nat)
    requires Inv(s) && s.cleaned <= r <= |Log(s.sent)|
    ensures var t := CleanedTo(s, r);
            && t.live == multiset(Segments(Log(s.sent)[r..])) && t.completed == Completions(Log(s.sent)[..r])
            && t.packets == |t.completed| && t.bytes == TotalLen(t.completed)
  {
    hide Log, Segments, Completions, TotalLen, Skbs, ValidSent;
    var log, c := Log(s.sent), s.cleaned;
    assert log[c..] == log[c..r] + log[r..];
    SegmentsConcat(log[c..r], log[r..]);
    assert log[..r] == log[..c] + log[c..r];
    CompletionsConcat(log[..c], log[c..r]);
    TotalLenConcat(s.completed, Completions(log[c..r]));
  }

  lemma AccountsOf(s: Tx, r: nat)
    requires Inv(s) && s.cleaned <= r <= |Log(s.sent)|
    ensures CleanedTo(s, r).live == multiset(Segments(Log(s.sent)[r..]))
    ensures |Completions(Log(s.sent)[s.cleaned..r])| == 0 ==> TotalLen(Completions(Log(s.sent)[s.cleaned..r])) == 0
  {
    hide Log, Segments, Completions, Inv;
    CleanedToKeepsAccounts(s, r);
  }

  lemma NoCompletions(log: seq<Slot>, c: nat)
    requires c <= |log|
    ensures Completions(log[c..c]) == [] && TotalLen(Completions(log[c..c])) == 0
  {}

  lemma CleanKeepsInv(s: Tx, to: nat, budget: nat)
    requires Inv(s) && s.cleaned <= to <= |Log(s.sent)|
    ensures Inv(Clean(s, to, budget))
  {
    hide Log, Segments, Completions, TotalLen, Skbs, ValidSent, Reach;
    ReachSpec(Log(s.sent), s.cleaned, to, budget);
    var r := Reach(Log(s.sent), s.cleaned, to, budget);
    CleanedToKeepsAccounts(s, r);
    RoomOf(CleanedTo(s, r));
  }

  // ---- Runs ----

  /** What may happen to a ring: a send, or a clean with the hardware index it read. */
  datatype Event = Send(x: Sent, mapped: bool) | Complete(to: nat, budget: nat)

  ghost predicate Enabled(s: Tx, ev: Event) {
    match ev
    case Send(x, _) => ValidSent(x)
    case Complete(to, _) => s.cleaned <= to <= |Log(s.sent)|
  }

  function Next(s: Tx, ev: Event): Tx
    requires Enabled(s, ev)
  {
    match ev
    case Send(x, mapped) => Xmit(s, x, mapped).0
    case Complete(to, budget) => Clean(s, to, budget)
  }

  ghost predicate StepOk(s: Tx, ev: Event, t: Tx) { Enabled(s, ev) && t == Next(s, ev) }

  /** Any interleaving of sends and cleans since the rings were programmed. */
  ghost predicate IsRun(states: seq<Tx>, evs: seq<Event>) {
    && |states| == |evs| + 1
    && states[0] == EMPTY
    && forall k :: 0 <= k < |evs| ==> StepOk(states[k], evs[k], states[k + 1])
  }

  lemma {:induction false} RunInv(states: seq<Tx>, evs: seq<Event>, k: nat)
    requires IsRun(states, evs) && k < |states|
    ensures Inv(states[k])
  {
    hide Inv, Enabled, Next;
    if k == 0 {
      EmptyInv();
    } else {
      RunInv(states, evs, k - 1);
      assert StepOk(states[k - 1], evs[k - 1], states[k]);
      StepKeepsInv(states[k - 1], evs[k - 1]);
    }
  }

  lemma EmptyInv()
    ensures Inv(EMPTY)
  {}

  lemma StepKeepsInv(s: Tx, ev: Event)
    requires Inv(s) && Enabled(s, ev)
    ensures Inv(Next(s, ev))
  {
    hide Inv, Xmit, Clean;
    match ev {
      case Send(x, mapped) => XmitKeepsInv(s, x, mapped);
      case Complete(to, budget) => CleanKeepsInv(s, to, budget);
    }
  }

  lemma {:induction false} CompletionsOfLog(sent: seq<Sent>)
    requires forall i :: 0 <= i < |sent| ==> ValidSent(sent[i])
    ensures Completions(Log(sent)) == Skbs(sent)
  {
    if sent != [] {
      var n := |sent| - 1;
      CompletionsOfLog(sent[..n]);
      PackRoundTrip(sent[n], []);
      CompletionsConcat(Log(sent[..n]), Pack(sent[n]));
    }
  }

  /** The ring refines a FIFO: in every reachable state the released packets are a prefix of the queued ones, in
      order, and packets and bytes reported sent are those reported completed plus those still in flight. */
  lemma RefinesFifo(states: seq<Tx>, evs: seq<Event>, k: nat)
    requires IsRun(states, evs) && k < |states|
    ensures var s := states[k];
            && s.completed <= Skbs(s.sent)
            && s.packets == |s.completed| && s.bytes == TotalLen(s.completed)
            && s.sentBytes == s.bytes + TotalLen(Skbs(s.sent)[|s.completed|..])
            && (InFlight(s) == 0 ==> s.completed == Skbs(s.sent))
  {
    hide IsRun, Log, Segments, Completions, TotalLen, Skbs, ValidSent;
    RunInv(states, evs, k);
    var s := states[k];
    var log := Log(s.sent);
    CompletionsOfLog(s.sent);
    assert log == log[..s.cleaned] + log[s.cleaned..];
    CompletionsConcat(log[..s.cleaned], log[s.cleaned..]);
    assert Skbs(s.sent)[|s.completed|..] == Completions(log[s.cleaned..]);
    TotalLenConcat(s.completed, Completions(log[s.cleaned..]));
    if InFlight(s) == 0 { assert log[..s.cleaned] == log; }
  }

  /** The packets whose sends were answered Queued, from the events and the answers alone. */
  function Accepted(states: seq<Tx>, evs: seq<Event>, k: nat): seq<Skb>
    requires k <= |evs| && |states| == |evs| + 1
  {
    if k == 0 then []
    else
      var earlier := Accepted(states, evs, k - 1);
      match evs[k - 1]
      case Send(x, mapped) => if Xmit(states[k - 1], x, mapped).1 == Queued then earlier + [x.skb] else earlier
      case Complete(_, _) => earlier
  }

  lemma {:induction false} AcceptedAreSent(states: seq<Tx>, evs: seq<Event>, k: nat)
    requires IsRun(states, evs) && k < |states|
    ensures Skbs(states[k].sent) == Accepted(states, evs, k)
  {
    hide Enabled, Next, Xmit, Clean, Inv;
    if k > 0 {
      AcceptedAreSent(states, evs, k - 1);
      RunInv(states, evs, k - 1);
      assert StepOk(states[k - 1], evs[k - 1], states[k]);
      StepSends(states[k - 1], evs[k - 1], states[k]);
    }
  }

  lemma StepSends(s: Tx, ev: Event, t: Tx)
    requires Inv(s) && StepOk(s, ev, t)
    ensures Skbs(t.sent)
            == match ev
               case Send(x, mapped) => if Xmit(s, x, mapped).1 == Queued then Skbs(s.sent) + [x.skb] else Skbs(s.sent)
               case Complete(_, _) => Skbs(s.sent)
  {
    hide Inv, Xmit, Reach, Avail, Log, Completions, Segments, TotalLen;
    if ev.Send? {
      SendMeans(s, ev.x, ev.mapped);
      assert (s.sent + [ev.x])[..|s.sent|] == s.sent;
    }
  }

  /** The FIFO law for what callers were told: in every run the released packets are a prefix of those answered
      Queued, in order, and all of them once the ring is drained. */
  lemma QueuedAreReleased(states: seq<Tx>, evs: seq<Event>, k: nat)
    requires IsRun(states, evs) && k < |states|
    ensures states[k].completed <= Accepted(states, evs, k)
    ensures InFlight(states[k]) == 0 ==> states[k].completed == Accepted(states, evs, k)
    ensures states[k].sentBytes == TotalLen(Accepted(states, evs, k))
  {
    hide IsRun, Log, TotalLen, Skbs, Accepted;
    RefinesFifo(states, evs, k);
    AcceptedAreSent(states, evs, k);
    RunInv(states, evs, k);
  }

  /** The ring's arithmetic in every reachable state: never more than 112 descriptors in flight, the masked room
      exact, a stopped queue more than 96 deep, and no refusal of the first packet after a wake. */
  lemma RingArithmetic(states: seq<Tx>, evs: seq<Event>, k: nat)
    requires IsRun(states, evs) && k < |states|
    ensures var s := states[k];
            && 0 <= InFlight(s) <= 112
            && Avail(Pos(s.cleaned), Pos(|Log(s.sent)|)) == 112 - InFlight(s)
            && (s.stopped ==> InFlight(s) > 96)
            && (forall x, mapped :: ValidSent(x) && s.woken ==> Xmit(s, x, mapped).1 != Busy)
  {
    hide IsRun, Log, Segments, Completions, TotalLen, Skbs, ValidSent, Xmit;
    RunInv(states, evs, k);
    RoomOf(states[k]);
    forall x, mapped | ValidSent(x) && states[k].woken ensures Xmit(states[k], x, mapped).1 != Busy {
      WokenQueueAccepts(states[k], x, mapped);
    }
  }

  /** Mapping conservation over runs: the mappings in force are exactly the segments in flight, so what a clean
      unmaps is mapped, and a drained ring holds no mapping. */
  lemma MappingsConserved(states: seq<Tx>, evs: seq<Event>, k: nat, to: nat)
    requires IsRun(states, evs) && k < |states| && states[k].cleaned <= to <= |Log(states[k].sent)|
    ensures var s := states[k];
            && s.live == multiset(Segments(Log(s.sent)[s.cleaned..]))
            && multiset(Segments(Log(s.sent)[s.cleaned..to])) <= s.live
            && (InFlight(s) == 0 ==> s.live == multiset{})
  {
    hide IsRun, Log, Completions, TotalLen, Skbs, ValidSent;
    RunInv(states, evs, k);
    var s := states[k];
    var log := Log(s.sent);
    assert log[s.cleaned..] == log[s.cleaned..to] + log[to..];
    SegmentsConcat(log[s.cleaned..to], log[to..]);
  }
}
