/**
 The configurations that main of src/bench_list_scale.c builds meet what the models of its
 engines ask for: anchors come from the stride formula, and writers own slots by index.
 */
module MainConfig {
  import opened RingList
  import opened Slots
  import Existence
  import Seqlock
  import PlanLock
  import PlanHarness

  // ---- the slot whose key is INT_MAX --------------------------------------

  ghost function AnchorSet(listSize: int, churn: int): set<int> {
    set i: int | 0 <= i < SlotCount(listSize, churn) :: AnchorOf(listSize, churn, i)
  }

  lemma AnchorInRange(listSize: int, churn: int, i: int)
    requires 0 <= i < SlotCount(listSize, churn)
    ensures 0 <= AnchorOf(listSize, churn, i) < listSize
  {
    StrideFits(listSize, SlotCount(listSize, churn), i);
  }

  /** With more than one node per slot, the last anchor stays clear of the last node. */
  lemma LastAnchor(listSize: int, slots: int, i: int)
    requires 0 <= i < slots < listSize
    ensures Slot(0, listSize / slots, i) < listSize - 1
  {
    var stride := listSize / slots;
    Quotient(listSize, slots);
    SlotStep(0, stride, i);
    if i + 1 < slots { SlotGrows(0, stride, i + 1, slots); }
    assert Slot(0, stride, slots) == slots * stride <= listSize;
    if stride == 1 { assert Slot(0, stride, i) == i; }
  }

  /** The last stable node is an anchor exactly if every node is. */
  lemma LastAnchored(listSize: int, churn: int)
    requires listSize > 0
    ensures listSize - 1 in AnchorSet(listSize, churn) <==> churn >= listSize
  {
    var slots := SlotCount(listSize, churn);
    if churn >= listSize {
      assert listSize / slots == 1;
      assert AnchorOf(listSize, churn, listSize - 1) == listSize - 1;
    } else {
      forall i | 0 <= i < slots ensures AnchorOf(listSize, churn, i) != listSize - 1 { LastAnchor(listSize, slots, i); }
    }
  }

  /**
   A list whose keys and step limit fit an int never has a slot with the key INT_MAX, and
   it is a configuration of the existence list and of the seqlock engine.
   */
  lemma KeysFit(listSize: int, churn: int, threads: int, forwardOnly: bool)
    requires 0 <= listSize <= TOP + 1 && threads >= 0 && listSize + SlotCount(listSize, churn) + 64 <= INT_MAX
    ensures var anchors := AnchorSet(listSize, churn);
            && TOP !in anchors
            && Existence.ValidConfig(Existence.Config(listSize, anchors, forwardOnly, threads))
            && Seqlock.ValidConfig(Seqlock.Config(listSize, anchors, threads))
  {
    var anchors := AnchorSet(listSize, churn);
    forall a: int | a in anchors ensures 0 <= a < listSize {
      var i :| 0 <= i < SlotCount(listSize, churn) && a == AnchorOf(listSize, churn, i);
      AnchorInRange(listSize, churn, i);
    }
    if listSize == TOP + 1 { LastAnchored(listSize, churn); }
  }

  // ---- who owns which slot ------------------------------------------------

  /** The writer of every anchor: slot i belongs to writer i modulo the number of writers. */
  ghost function OwnersUpTo(listSize: int, churn: int, nw: int, k: int): PlanHarness.Owners
    requires nw >= 1 && 0 <= k <= SlotCount(listSize, churn)
    decreases k
  {
    if k == 0 then map[] else OwnersUpTo(listSize, churn, nw, k - 1)[AnchorOf(listSize, churn, k - 1) := (k - 1) % nw]
  }

  ghost function Owners(listSize: int, churn: int, nw: int): PlanHarness.Owners
    requires nw >= 1
  {
    OwnersUpTo(listSize, churn, nw, SlotCount(listSize, churn))
  }

  lemma AnchorsDiffer(listSize: int, churn: int, i: int, j: int)
    requires 0 <= i < j < SlotCount(listSize, churn)
    ensures AnchorOf(listSize, churn, i) < AnchorOf(listSize, churn, j)
  {
    StrideFits(listSize, SlotCount(listSize, churn), i);
    SlotGrows(0, listSize / SlotCount(listSize, churn), i, j);
  }

  lemma {:induction false} OwnersAre(listSize: int, churn: int, nw: int, k: int)
    requires nw >= 1 && 0 <= k <= SlotCount(listSize, churn)
    ensures var own := OwnersUpTo(listSize, churn, nw, k);
            && (forall i :: 0 <= i < k ==> AnchorOf(listSize, churn, i) in own && own[AnchorOf(listSize, churn, i)] == i % nw)
            && (forall a: int :: a in own ==> exists i :: 0 <= i < k && a == AnchorOf(listSize, churn, i))
    decreases k
  {
    if k > 0 {
      OwnersAre(listSize, churn, nw, k - 1);
      forall i | 0 <= i < k - 1 ensures AnchorOf(listSize, churn, i) != AnchorOf(listSize, churn, k - 1) {
        AnchorsDiffer(listSize, churn, i, k - 1);
      }
    }
  }

  /** A writer may toggle exactly the anchors of the slots wid, wid + nw, wid + 2 nw, ... */
  lemma OwnsItsSlots(listSize: int, churn: int, nw: int, wid: int, i: int)
    requires 0 <= wid < nw && 0 <= i < SlotCount(listSize, churn)
    ensures var own, a := Owners(listSize, churn, nw), AnchorOf(listSize, churn, i);
            a in own && (own[a] == wid <==> exists m: int :: i == Slot(wid, nw, m))
  {
    OwnersAre(listSize, churn, nw, SlotCount(listSize, churn));
    SlotsPartition(nw, i);
  }

  /** With the anchors and the slot ownership of main, no plan goes stale, for any assignment of nodes to stripes. */
  lemma MainNeverStale(listSize: int, churn: int, nw: int, stripe: map<int, int>, hs: seq<PlanHarness.HMove>, t: int)
    requires 0 <= listSize && 0 <= t < nw
    ensures var c, own := PlanLock.Config(stripe, listSize, nw), Owners(listSize, churn, nw);
            && PlanHarness.ValidOwners(c, own)
            && var s := PlanLock.Exec(c, PlanHarness.Run(c, own, hs).sched); s.retries == 0 && !s.pc[t].Undo?
  {
    var c, own := PlanLock.Config(stripe, listSize, nw), Owners(listSize, churn, nw);
    OwnersAre(listSize, churn, nw, SlotCount(listSize, churn));
    forall a: int | a in own ensures 0 <= a < listSize && 0 <= own[a] < nw {
      var i :| 0 <= i < SlotCount(listSize, churn) && a == AnchorOf(listSize, churn, i);
      AnchorInRange(listSize, churn, i);
    }
    PlanHarness.NoPlanGoesStale(c, own, hs, t);
  }
}
