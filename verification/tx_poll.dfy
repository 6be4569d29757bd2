/** The transmit polling loop: budgeted round-robin cleaning of up to four rings. */
module TxPolling {
  import opened Wire
  import opened TxDesc
  import opened TxFifo
  import opened TxRings

  const QUANTUM: nat := 8

  /** How many places after q queue a comes in a round of n. */
  function Turn(q: nat, a: nat, n: nat): nat
    requires q < n && a < n
  {
    if q <= a then a - q else a + n - q
  }

  lemma TurnOf(q: nat, i: nat, n: nat)
    requires q < n && i < n
    ensures var cur := (q + i) % n; cur < n && forall a :: 0 <= a < n ==> (Turn(q, a, n) == i <==> a == cur)
  {
    if q + i < n {
      assert (q + i) % n == q + i;
    } else {
      ModOnce(q + i, n);
    }
  }

  lemma ModOnce(x: nat, n: nat)
    requires n <= x < 2 * n
    ensures x % n == x - n
  {
    assert x == 1 * n + (x - n);
    assert x / n == 1;
  }

  // ---- What a poll does, visit by visit ----

  /** One ring was offered a quota and completed so many packets. */
  datatype Visit = Visit(queue: nat, quota: nat, done: nat)

  function Total(trace: seq<Visit>): nat {
    if trace == [] then 0 else Total(trace[..|trace| - 1]) + trace[|trace| - 1].done
  }

  /** What queue a completed. */
  function Of(trace: seq<Visit>, a: nat): nat {
    if trace == [] then 0
    else
      var v := trace[|trace| - 1];
      Of(trace[..|trace| - 1], a) + (if v.queue == a then v.done else 0)
  }

  /** Queue a always completed as much as it was offered. */
  ghost predicate Fills(trace: seq<Visit>, a: nat) {
    forall k :: 0 <= k < |trace| && trace[k].queue == a ==> trace[k].done == trace[k].quota
  }

  /** Every visit was offered a quantum, or what was left of the budget. */
  ghost predicate Offered(trace: seq<Visit>, budget: nat) {
    forall k :: 0 <= k < |trace| ==>
      && Total(trace[..k]) < budget
      && trace[k].quota == Min(QUANTUM, budget - Total(trace[..k])) && trace[k].done <= trace[k].quota
  }

  lemma TraceGrows(trace: seq<Visit>, v: Visit, budget: nat)
    ensures Total(trace + [v]) == Total(trace) + v.done
    ensures forall a :: Of(trace + [v], a) == Of(trace, a) + (if v.queue == a then v.done else 0)
    ensures forall a :: Fills(trace + [v], a) <==> Fills(trace, a) && (v.queue == a ==> v.done == v.quota)
    ensures Offered(trace, budget) && Total(trace) < budget && v.quota == Min(QUANTUM, budget - Total(trace)) && v.done <= v.quota
            ==> Offered(trace + [v], budget)
  {
    var t := trace + [v];
    assert t[..|trace|] == trace && t[|trace|] == v;
    assert forall k :: 0 <= k < |trace| ==> t[k] == trace[k] && t[..k] == trace[..k];
  }

  /** If queue a always filled its quota, it completed between lo and hi packets. */
  ghost predicate Between(trace: seq<Visit>, a: nat, lo: nat, hi: nat) { Fills(trace, a) ==> lo <= Of(trace, a) <= hi }

  ghost predicate Level(trace: seq<Visit>, n: nat, lo: nat, hi: nat) {
    forall a :: 0 <= a < n ==> Between(trace, a, lo, hi)
  }

  class TxPoller {
    const rings: seq<TxRing>
    var next: nat
    /** The hardware index registers, one per ring. */
    var dtx: seq<nat>

    ghost function Footprint(): set<object> {
      set i, o | 0 <= i < |rings| && o in rings[i].Repr() :: o
    }

    ghost predicate Shape() {
      && 1 <= |rings| <= 4
      && (forall i, j :: 0 <= i < j < |rings| ==> rings[i].Repr() !! rings[j].Repr())
      && (forall i :: 0 <= i < |rings| ==> this !in rings[i].Repr())
    }

    ghost predicate Ready(i: nat)
      requires i < |rings|
      reads this, rings[i].Repr()
    {
      rings[i].Valid() && i < |dtx| && dtx[i] < RING && Target(rings[i].cleaned, dtx[i]) <= |Log(rings[i].sent)|
    }

    ghost predicate Valid()
      reads this, Footprint()
    {
      Shape() && next < |rings| && |dtx| == |rings| && forall i :: 0 <= i < |rings| ==> Ready(i)
    }

    constructor (rings: seq<TxRing>)
      requires 1 <= |rings| <= 4
      requires forall i, j :: 0 <= i < j < |rings| ==> rings[i].Repr() !! rings[j].Repr()
      requires forall i :: 0 <= i < |rings| ==> rings[i].Valid()
      ensures Valid() && next == 0
    {
      hide Log, Inv, Target;
      this.rings := rings;
      next := 0;
      dtx := seq(|rings|, i requires 0 <= i < |rings| reads rings => rings[i].cleanIdx);
      new;
      forall i | 0 <= i < |rings| ensures Ready(i) { StartsAtClean(rings[i]); }
    }

    lemma ReadyOf(i: nat)
      requires i < |rings| && Ready(i)
      ensures rings[i].Shape() && 0 <= InFlight(rings[i].View()) <= RING - STOP_RESERVE
      ensures rings[i].cleanIdx == Pos(rings[i].cleaned) && rings[i].cpuIdx == Pos(|Log(rings[i].sent)|)
    {
      hide Log;
    }

    /** The hardware has moved on, never past the software index, and the ring is cleaned up to what is read. */
    method CleanNext(cur: nat, quota: nat) returns (done: nat)
      requires Valid() && cur < |rings|
      modifies this`dtx, rings[cur].Repr()
      ensures Valid() && done <= quota
      ensures |rings[cur].completed| == |old(rings[cur].completed)| + done && rings[cur].sent == old(rings[cur].sent)
      ensures done < quota ==> rings[cur].cleanIdx == dtx[cur]
      ensures forall i :: 0 <= i < |rings| && i != cur ==>
                dtx[i] == old(dtx[i]) && rings[i].cleanIdx == old(rings[i].cleanIdx)
                && rings[i].completed == old(rings[i].completed) && rings[i].sent == old(rings[i].sent)
    {
      hide Log, Pos, Target, Clean, Inv, TxRing.Valid;
      var ring := rings[cur];
      assert Ready(cur);
      ReadyOf(cur);
      var hw := HwAdvance(ring.cleanIdx, ring.cpuIdx, dtx[cur], ring);
      dtx := dtx[cur := hw];
      PosOfTarget(ring.cleaned, hw);
      CompletedBy(ring, hw, quota);
      done := ring.CleanQ(hw, quota);
      forall i | 0 <= i < |rings| ensures Ready(i) {
        if i != cur { assert old(Ready(i)); }
      }
    }

    /** One visit: a quantum, or the rest of the budget. */
    method Serve(cur: nat, budget: nat, work: nat, ghost trace: seq<Visit>, ghost was: seq<nat>)
      returns (done: nat, ghost trace': seq<Visit>)
      requires Valid() && cur < |rings| && work < budget && |was| == |rings| && Traced(trace, was, budget, work)
      modifies this`dtx, rings[cur].Repr()
      ensures Valid() && done <= Min(QUANTUM, budget - work)
      ensures trace' == trace + [Visit(cur, Min(QUANTUM, budget - work), done)] && Traced(trace', was, budget, work + done)
      ensures done == 0 ==> rings[cur].cleanIdx == dtx[cur]
      ensures forall i :: 0 <= i < |rings| && i != cur ==> dtx[i] == old(dtx[i]) && rings[i].cleanIdx == old(rings[i].cleanIdx)
      ensures forall i :: 0 <= i < |rings| ==> rings[i].sent == old(rings[i].sent)
    {
      hide Valid, Offered, Of, Total, Fills;
      var quota := Min(QUANTUM, budget - work);
      done := CleanNext(cur, quota);
      trace' := trace + [Visit(cur, quota, done)];
      TraceGrows(trace, Visit(cur, quota, done), budget);
    }

    /** The trace accounts for the budget used and for what every ring has completed since `was`. */
    ghost predicate Traced(trace: seq<Visit>, was: seq<nat>, budget: nat, work: nat)
      requires |was| == |rings|
      reads rings
    {
      && Offered(trace, budget) && work == Total(trace) <= budget
      && forall a :: 0 <= a < |rings| ==> |rings[a].completed| == was[a] + Of(trace, a)
    }

    /** The ring is cleaned up to the hardware index last read for it. */
    ghost predicate Drained(a: nat)
      requires a < |rings|
      reads this`dtx, rings[a]
    {
      a < |dtx| && rings[a].cleanIdx == dtx[a]
    }

    /** The packets each ring was given, and how many each has released. */
    ghost function AllSent(): seq<seq<Sent>>
      reads rings
    {
      seq(|rings|, i requires 0 <= i < |rings| reads rings => rings[i].sent)
    }

    ghost function Released(): seq<nat>
      reads rings
    {
      seq(|rings|, i requires 0 <= i < |rings| reads rings => |rings[i].completed|)
    }

    /** After i visits of a round that began with ring q: `level` is what each queue that always filled its
        quota had completed before the round. */
    ghost predicate InRound(q: nat, i: nat, trace: seq<Visit>, level: nat, before: nat, work: nat, budget: nat)
      requires q < |rings|
      reads this`dtx, rings
    {
      && before <= work <= budget
      && forall a :: 0 <= a < |rings| ==>
           if Turn(q, a, |rings|) >= i then Between(trace, a, level, level)
           else
             && Between(trace, a, level, level + QUANTUM)
             && (work < budget ==> Between(trace, a, level + QUANTUM, level + QUANTUM))
             && (work == before ==> Drained(a))
    }

    method RoundStep(q: nat, i: nat, budget: nat, work: nat, ghost before: nat, ghost trace: seq<Visit>,
                     ghost was: seq<nat>, ghost level: nat)
      returns (work': nat, ghost trace': seq<Visit>)
      requires Valid() && q < |rings| && i < |rings| && work < budget && |was| == |rings| && Traced(trace, was, budget, work)
      requires InRound(q, i, trace, level, before, work, budget)
      modifies this`dtx, Footprint()
      ensures Valid() && Traced(trace', was, budget, work') && InRound(q, i + 1, trace', level, before, work', budget)
      ensures AllSent() == old(AllSent())
    {
      hide Valid, Traced, Footprint, Fills, Of;
      ShapeOfValid();
      var cur := (q + i) % |rings|;
      TurnOf(q, i, |rings|);
      FootprintOf(cur);
      var done;
      done, trace' := Serve(cur, budget, work, trace, was);
      TraceGrows(trace, Visit(cur, Min(QUANTUM, budget - work), done), budget);
      work' := work + done;
      assert AllSent() == old(AllSent());
      ShapeOfValid();
      forall a | 0 <= a < |rings| && a != cur && Turn(q, a, |rings|) < i + 1
        ensures Between(trace', a, level, level + QUANTUM) && Between(trace', a, level + QUANTUM, level + QUANTUM)
        ensures work' == before ==> Drained(a)
      {
        assert Turn(q, a, |rings|) < i;
        assert Between(trace, a, level + QUANTUM, level + QUANTUM);
        if work' == before { assert old(Drained(a)); }
      }
      forall a | 0 <= a < |rings| && Turn(q, a, |rings|) >= i + 1 ensures Between(trace', a, level, level) {
        assert Between(trace, a, level, level);
      }
      assert Between(trace, cur, level, level);
    }

    lemma ShapeOfValid()
      requires Valid()
      ensures Shape() && |dtx| == |rings| && next < |rings|
    {}

    /** One round over all rings, starting with ring q, until the budget is used up. */
    method Round(q: nat, budget: nat, before: nat, ghost trace0: seq<Visit>, ghost was: seq<nat>, ghost level: nat)
      returns (work: nat, ghost trace: seq<Visit>)
      requires Valid() && q < |rings| && before < budget && |was| == |rings| && Traced(trace0, was, budget, before)
      requires Level(trace0, |rings|, level, level)
      modifies this`dtx, Footprint()
      ensures Valid() && before <= work <= budget && Traced(trace, was, budget, work)
      ensures Level(trace, |rings|, level, level + QUANTUM)
      ensures work < budget ==> Level(trace, |rings|, level + QUANTUM, level + QUANTUM)
      ensures work == before ==> forall a :: 0 <= a < |rings| ==> Drained(a)
      ensures AllSent() == old(AllSent())
    {
      hide Valid, Traced, Footprint, Fills, Of, Drained;
      work, trace := before, trace0;
      var i := 0;
      while i < |rings| && work < budget
        invariant i <= |rings| && Valid() && Traced(trace, was, budget, work)
        invariant InRound(q, i, trace, level, before, work, budget) && AllSent() == old(AllSent())
      {
        work, trace := RoundStep(q, i, budget, work, before, trace, was, level);
        i := i + 1;
      }
      InRoundEnds(q, i, trace, level, before, work, budget);
    }

    lemma InRoundEnds(q: nat, i: nat, trace: seq<Visit>, level: nat, before: nat, work: nat, budget: nat)
      requires q < |rings| && InRound(q, i, trace, level, before, work, budget) && i <= |rings|
      requires i == |rings| || work == budget > before
      ensures Level(trace, |rings|, level, level + QUANTUM)
      ensures work < budget ==> Level(trace, |rings|, level + QUANTUM, level + QUANTUM)
      ensures work == before ==> forall a :: 0 <= a < |rings| ==> Drained(a)
    {
      hide Fills, Of, Drained;
      var top := level + QUANTUM;
      forall a | 0 <= a < |rings| ensures Between(trace, a, level, top) {
        assert Turn(q, a, |rings|) < |rings|;
      }
      if work < budget {
        forall a | 0 <= a < |rings| ensures Between(trace, a, top, top) {
          assert Turn(q, a, |rings|) < |rings|;
        }
      }
      if work == before {
        forall a | 0 <= a < |rings| ensures Drained(a) {
          assert Turn(q, a, |rings|) < |rings|;
        }
      }
    }

    lemma FootprintOf(i: nat)
      requires i < |rings|
      ensures rings[i].Repr() <= Footprint()
    {}

    /** The poll: rounds until the budget is used up or a round completes nothing. It never exceeds the budget;
        if it ends below, every ring was cleaned up to the hardware index read in the last round; and two queues
        that always filled what they were offered differ by at most one quantum. */
    method Poll(budget: nat) returns (work: nat, ghost trace: seq<Visit>)
      requires Valid()
      modifies this, Footprint()
      ensures Valid() && work <= budget && Traced(trace, old(Released()), budget, work)
      ensures work < budget ==> forall a :: 0 <= a < |rings| ==> Drained(a)
      ensures forall a, b :: 0 <= a < |rings| && 0 <= b < |rings| && Fills(trace, a) && Fills(trace, b) ==>
                Of(trace, a) <= Of(trace, b) + QUANTUM
      ensures AllSent() == old(AllSent())
    {
      hide Valid, Traced, Fills, Of, Footprint, Drained;
      ghost var level: nat, was := 0, Released();
      ShapeOfValid();
      var q: nat := next;
      work, trace := 0, [];
      EmptyTrace(was, budget);
      var go := true;
      while go && work < budget
        invariant q < |rings| && Valid() && work <= budget && Traced(trace, was, budget, work)
        invariant Level(trace, |rings|, level, if work < budget then level else level + QUANTUM)
        invariant !go && work < budget ==> forall a :: 0 <= a < |rings| ==> Drained(a)
        invariant AllSent() == old(AllSent())
        decreases budget - work, if go then 1 else 0
      {
        var before := work;
        work, trace := Round(q, budget, before, trace, was, level);
        if work < budget { level := level + QUANTUM; }
        q := q + 1;
        if q == |rings| { q := 0; }
        if work == before { go := false; }
      }
      SetNext(q);
      forall a, b | 0 <= a < |rings| && 0 <= b < |rings| && Fills(trace, a) && Fills(trace, b)
        ensures Of(trace, a) <= Of(trace, b) + QUANTUM
      {
        assert Between(trace, a, level, level + QUANTUM) && Between(trace, b, level, level + QUANTUM);
      }
    }

    method SetNext(q: nat)
      requires Valid() && q < |rings|
      modifies this`next
      ensures Valid() && next == q
    {
      hide Log, Inv, Target;
      next := q;
      forall i | 0 <= i < |rings| ensures Ready(i) { assert old(Ready(i)); }
    }

    lemma EmptyTrace(was: seq<nat>, budget: nat)
      requires was == Released()
      ensures Traced([], was, budget, 0) && Level([], |rings|, 0, 0)
    {}

    /** Any forward movement of the hardware index up to the software index. */
    method HwAdvance(clean: nat, cpu: nat, was: nat, ghost ring: TxRing) returns (hw: nat)
      requires was < RING && clean == Pos(ring.cleaned) && cpu == Pos(|Log(ring.sent)|)
      requires 0 <= |Log(ring.sent)| - ring.cleaned < RING && Target(ring.cleaned, was) <= |Log(ring.sent)|
      ensures hw < RING && Target(ring.cleaned, was) <= Target(ring.cleaned, hw) <= |Log(ring.sent)|
    {
      hide Log;
      assert 0 <= was < RING && (was - clean) % RING <= (was - clean) % RING <= (cpu - clean) % RING;
      hw :| 0 <= hw < RING && (was - clean) % RING <= (hw - clean) % RING <= (cpu - clean) % RING;
    }
  }

  /** After a clean towards an index, the index still stands for the same descriptor. */
  lemma CompletedBy(ring: TxRing, hw: nat, quota: nat)
    requires hw < RING && ring.cleaned <= Target(ring.cleaned, hw) <= |Log(ring.sent)|
    ensures var t := Clean(ring.View(), Target(ring.cleaned, hw), quota);
            t.sent == ring.sent && ring.cleaned <= t.cleaned && Target(t.cleaned, hw) == Target(ring.cleaned, hw)
  {
    hide Log, Pos, Target, Segments, Completions, TotalLen;
    PosOfTarget(ring.cleaned, hw);
    TargetStays(ring.cleaned, Clean(ring.View(), Target(ring.cleaned, hw), quota).cleaned, hw);
  }

  lemma StartsAtClean(ring: TxRing)
    requires ring.Valid()
    ensures ring.cleanIdx < RING && Target(ring.cleaned, ring.cleanIdx) == ring.cleaned <= |Log(ring.sent)|
  {
    hide Log;
  }

  lemma TargetStays(c: nat, c': nat, hw: nat)
    requires hw < RING && c <= c' <= Target(c, hw)
    ensures Target(c', hw) == Target(c, hw)
  {}
}
