/** The receive polling loop over two rings. */
module RxPolling {
  import opened Wire
  import opened RxRings

  /** The visits of a poll in order, alternating between ring 0 and ring 1: whether each found a packet. */
  type Visits = seq<bool>

  /** How many visits to ring q (0 or 1) found a packet. */
  function Found(v: Visits, q: nat): nat {
    if v == [] then 0
    else
      var last := |v| - 1;
      Found(v[..last], q) + (if last % 2 == q && v[last] then 1 else 0)
  }

  /** Ring q had a packet at every visit. */
  ghost predicate AlwaysReady(v: Visits, q: nat) { forall k :: 0 <= k < |v| && k % 2 == q ==> v[k] }

  lemma FoundNext(v: Visits, got: bool)
    ensures Found(v + [got], 0) == Found(v, 0) + (if |v| % 2 == 0 && got then 1 else 0)
    ensures Found(v + [got], 1) == Found(v, 1) + (if |v| % 2 == 1 && got then 1 else 0)
  {
    assert (v + [got])[..|v|] == v;
  }

  lemma {:induction false} ReadyCount(v: Visits, q: nat)
    requires q < 2 && AlwaysReady(v, q)
    ensures Found(v, q) == (|v| + 1 - q) / 2
  {
    if v != [] {
      var last := |v| - 1;
      assert forall k :: 0 <= k < last ==> v[..last][k] == v[k];
      ReadyCount(v[..last], q);
    }
  }

  /** Two rings that always had a packet are served within one packet of each other. */
  lemma AlternationIsFair(v: Visits)
    requires AlwaysReady(v, 0) && AlwaysReady(v, 1)
    ensures Found(v, 1) <= Found(v, 0) <= Found(v, 1) + 1
  {
    ReadyCount(v, 0);
    ReadyCount(v, 1);
  }

  /** The software index n packets after `start`. */
  function IndexAfter(start: nat, n: nat): nat { (start + n) % RX_RING }

  lemma IndexAdds(start: nat, n: nat, k: nat)
    ensures IndexAfter(IndexAfter(start, n), k) == IndexAfter(start, n + k)
    ensures start < RX_RING ==> IndexAfter(start, 0) == start
  {}

  class RxPoller {
    const format: Format
    const ring0: RxRing
    const ring1: RxRing
    /** The two software-index registers, as last written. */
    var index0: nat
    var index1: nat

    ghost predicate Valid()
      reads this, ring0.Repr(), ring1.Repr()
    {
      && ring0.Repr() !! ring1.Repr() && this !in ring0.Repr() && this !in ring1.Repr()
      && ring0.Valid() && Full(ring0.View()) && ring1.Valid() && Full(ring1.View())
    }

    constructor (format: Format, ring0: RxRing, ring1: RxRing)
      requires ring0.Repr() !! ring1.Repr()
      requires ring0.Valid() && Full(ring0.View()) && ring1.Valid() && Full(ring1.View())
      ensures Valid() && index0 == ring0.cpuIdx && index1 == ring1.cpuIdx
    {
      this.format, this.ring0, this.ring1 := format, ring0, ring1;
      index0, index1 := ring0.cpuIdx, ring1.cpuIdx;
    }

    /** The hardware may have handed the next descriptor over; whether allocation, building and the flow
        engine's check succeed is up to the environment. Then one packet is consumed, if there is one. */
    method Take(ring: RxRing) returns (got: int)
      requires ring.Valid() && Full(ring.View()) && this !in ring.Repr()
      modifies ring.Repr()
      ensures ring.Valid() && Full(ring.View()) && All(ring.View()) == All(old(ring.View()))
      ensures got >= -1
      ensures got >= 0 ==> ring.cpuIdx == (old(ring.cpuIdx) + 1) % RX_RING
      ensures got == -1 ==> ring.cpuIdx == old(ring.cpuIdx) && !ring.desc[(ring.cpuIdx + 1) % RX_RING].done
    {
      hide Full, All;
      if * {
        var len: nat, info4: bv32 := *, *;
        ring.HwReceive((ring.cpuIdx + 1) % RX_RING, len, info4);
      }
      var spare: Option<Page> := None;
      if * {
        if ring.pool != {} {
          var p :| p in ring.pool;
          spare := Some(p);
        }
      }
      var built: bool, accepted: bool := *, *;
      got := ring.ConsumeOne(format, spare, built, accepted);
    }

    function Ring(q: nat): RxRing { if q == 0 then ring0 else ring1 }

    /** The ring's next descriptor has not been handed over. */
    ghost predicate Idle(q: nat)
      requires Valid() && q < 2
      reads this, ring0.Repr(), ring1.Repr()
    {
      !Ring(q).desc[(Ring(q).cpuIdx + 1) % RX_RING].done
    }

    ghost function Owned(q: nat): set<Page>
      reads ring0.Repr(), ring1.Repr()
    {
      All(Ring(q).View())
    }

    method TakeFrom(q: nat) returns (got: int)
      requires Valid() && q < 2
      modifies Ring(q).Repr()
      ensures Valid() && got >= -1 && forall r :: 0 <= r < 2 ==> Owned(r) == old(Owned(r))
      ensures Ring(q).cpuIdx == (old(Ring(q).cpuIdx) + (if got >= 0 then 1 else 0)) % RX_RING
      ensures got == -1 ==> Idle(q)
      ensures index0 == old(index0) && index1 == old(index1)
      ensures Ring(1 - q).cpuIdx == old(Ring(1 - q).cpuIdx) && Idle(1 - q) == old(Idle(1 - q))
    {
      hide Full, All;
      got := Take(Ring(q));
    }

    method Publish(touched0: bool, touched1: bool)
      requires Valid()
      modifies this`index0, this`index1
      ensures Valid() && (Idle(0) <==> old(Idle(0))) && (Idle(1) <==> old(Idle(1)))
      ensures index0 == (if touched0 then ring0.cpuIdx else old(index0)) && index1 == (if touched1 then ring1.cpuIdx else old(index1))
    {
      hide Full;
      if touched0 { index0 := ring0.cpuIdx; }
      if touched1 { index1 := ring1.cpuIdx; }
    }

    /** One pass: a packet from ring 0 and, while there is budget, one from ring 1. */
    method Pass(room: nat, ghost v: Visits) returns (took0: bool, took1: bool, ghost v': Visits)
      requires Valid() && room > 0 && |v| % 2 == 0
      modifies ring0.Repr(), ring1.Repr()
      ensures Valid() && forall r :: 0 <= r < 2 ==> Owned(r) == old(Owned(r))
      ensures ring0.cpuIdx == IndexAfter(old(ring0.cpuIdx), if took0 then 1 else 0)
      ensures ring1.cpuIdx == IndexAfter(old(ring1.cpuIdx), if took1 then 1 else 0)
      ensures index0 == old(index0) && index1 == old(index1)
      ensures v' == if room == 1 && took0 then v + [true] else v + [took0] + [took1]
      ensures room == 1 && took0 ==> !took1
      ensures Found(v', 0) == Found(v, 0) + (if took0 then 1 else 0) && Found(v', 1) == Found(v, 1) + (if took1 then 1 else 0)
      ensures !took0 ==> Idle(0)
      ensures !took1 && !(room == 1 && took0) ==> Idle(1)
    {
      hide Valid, Idle, Owned, Found;
      InRange();
      var got := TakeFrom(0);
      took0, took1 := got >= 0, false;
      FoundNext(v, took0);
      v' := v + [took0];
      if took0 && room == 1 { return; }
      got := TakeFrom(1);
      took1 := got >= 0;
      FoundNext(v', took1);
      v' := v' + [took1];
    }

    lemma InRange()
      requires Valid()
      ensures ring0.cpuIdx < RX_RING && ring1.cpuIdx < RX_RING
    {
      hide Full;
    }

    /** The poll: one packet from each ring in turn. It never exceeds the budget; below it, the last pass found
        both rings empty; and each ring that was served gets the index of its last rearmed slot published, the
        other keeps its register. Rings that had a packet at every visit are served within one packet of each other. */
    method Poll(budget: nat) returns (work: nat, ghost v: Visits)
      requires Valid()
      modifies this, ring0.Repr(), ring1.Repr()
      ensures Valid() && forall q :: 0 <= q < 2 ==> Owned(q) == old(Owned(q))
      ensures work == Found(v, 0) + Found(v, 1) <= budget
      ensures AlwaysReady(v, 0) && AlwaysReady(v, 1) ==> Found(v, 1) <= Found(v, 0) <= Found(v, 1) + 1
      ensures work < budget ==> |v| >= 2 && |v| % 2 == 0 && !v[|v| - 2] && !v[|v| - 1] && Idle(0) && Idle(1)
      ensures ring0.cpuIdx == IndexAfter(old(ring0.cpuIdx), Found(v, 0))
      ensures ring1.cpuIdx == IndexAfter(old(ring1.cpuIdx), Found(v, 1))
      ensures index0 == (if Found(v, 0) > 0 then ring0.cpuIdx else old(index0))
      ensures index1 == (if Found(v, 1) > 0 then ring1.cpuIdx else old(index1))
    {
      hide Valid, Idle, Owned, Found, IndexAfter;
      InRange();
      NothingFound();
      IndexAdds(ring0.cpuIdx, 0, 0);
      IndexAdds(ring1.cpuIdx, 0, 0);
      var touched0, touched1, go := false, false, true;
      work, v := 0, [];
      while go && work < budget
        invariant Valid() && forall q :: 0 <= q < 2 ==> Owned(q) == old(Owned(q))
        invariant work == Found(v, 0) + Found(v, 1) <= budget
        invariant (touched0 <==> Found(v, 0) > 0) && (touched1 <==> Found(v, 1) > 0)
        invariant ring0.cpuIdx == IndexAfter(old(ring0.cpuIdx), Found(v, 0))
        invariant ring1.cpuIdx == IndexAfter(old(ring1.cpuIdx), Found(v, 1))
        invariant index0 == old(index0) && index1 == old(index1)
        invariant work < budget ==> |v| % 2 == 0
        invariant !go && work < budget ==> |v| >= 2 && !v[|v| - 2] && !v[|v| - 1] && Idle(0) && Idle(1)
        decreases budget - work, if go then 1 else 0
      {
        var took0, took1;
        ghost var w := v;
        took0, took1, v := Pass(budget - work, v);
        IndexAdds(old(ring0.cpuIdx), Found(w, 0), if took0 then 1 else 0);
        IndexAdds(old(ring1.cpuIdx), Found(w, 1), if took1 then 1 else 0);
        touched0, touched1 := touched0 || took0, touched1 || took1;
        work := work + (if took0 then 1 else 0) + (if took1 then 1 else 0);
        go := took0 || took1;
      }
      Publish(touched0, touched1);
      if AlwaysReady(v, 0) && AlwaysReady(v, 1) { AlternationIsFair(v); }
    }

    lemma NothingFound()
      ensures Found([], 0) == 0 && Found([], 1) == 0
    {}
  }
}
