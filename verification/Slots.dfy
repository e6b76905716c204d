/**
 The churn schedule of src/bench_list_scale.c: which anchors the slots get, and which
 slots each writer toggles.
 */
module Slots {
  /** The m-th slot of writer wid out of nw; also the m-th anchor for a stride nw and wid 0. */
  function Slot(wid: int, nw: int, m: int): int { wid + m * nw }

  lemma SlotStep(wid: int, nw: int, m: int)
    ensures Slot(wid, nw, 0) == wid && Slot(wid, nw, m + 1) == Slot(wid, nw, m) + nw
  {
    assert (m + 1) * nw == m * nw + nw;
  }

  lemma SlotGrows(wid: int, nw: int, k: int, l: int)
    requires nw >= 1 && k < l
    ensures Slot(wid, nw, k) < Slot(wid, nw, l)
  {
    assert l * nw == k * nw + (l - k) * nw;
    assert (l - k) * nw >= 1;
  }

  /** Writers' slots are disjoint, and every slot belongs to one of them. */
  lemma SlotsPartition(nw: int, j: int)
    requires nw >= 1 && j >= 0
    ensures 0 <= j % nw < nw && j / nw >= 0 && j == Slot(j % nw, nw, j / nw)
    ensures forall wid: int, m: int {:trigger Slot(wid, nw, m)} :: 0 <= wid < nw && j == Slot(wid, nw, m) ==> wid == j % nw && m == j / nw
  {
    forall wid: int, m: int {:trigger Slot(wid, nw, m)} | 0 <= wid < nw && j == Slot(wid, nw, m) ensures wid == j % nw && m == j / nw {
      OneQuotient(nw, wid, m, j % nw, j / nw);
    }
  }

  lemma SlotBelow(nw: int, r: int, q: int, q': int)
    requires 0 <= r < nw && q < q'
    ensures Slot(r, nw, q) < Slot(0, nw, q')
  {
    SlotStep(0, nw, q);
    if q + 1 < q' { SlotGrows(0, nw, q + 1, q'); }
  }

  lemma OneQuotient(nw: int, r: int, q: int, r': int, q': int)
    requires 0 <= r < nw && 0 <= r' < nw && Slot(r, nw, q) == Slot(r', nw, q')
    ensures r == r' && q == q'
  {
    if q < q' { SlotBelow(nw, r, q, q'); }
    if q' < q { SlotBelow(nw, r', q', q); }
  }

  lemma SlotOf(nw: int, wid: int, m: int)
    requires 0 <= wid < nw && m >= 0
    ensures var j := Slot(wid, nw, m); 0 <= j && j % nw == wid && j / nw == m
  {
    SlotStep(wid, nw, 0);
    if m > 0 { SlotGrows(wid, nw, 0, m); }
    SlotsPartition(nw, Slot(wid, nw, m));
  }

  /** The number of slots, capped at the list size. */
  function SlotCount(listSize: int, churn: int): (r: int)
    ensures 0 <= r && (r > 0 ==> r <= listSize)
  {
    if churn <= 0 || listSize <= 0 then 0 else if churn > listSize then listSize else churn
  }

  /** The anchor of slot i. */
  function AnchorOf(listSize: int, churn: int, i: int): int
    requires 0 <= i < SlotCount(listSize, churn)
  {
    Slot(0, listSize / SlotCount(listSize, churn), i)
  }

  /**
   The anchors that main hands out.  They grow strictly, so different slots have different
   anchors, and each is a stable node; the number of slots is capped at the list size.
   */
  method Anchors(listSize: int, churn: int) returns (anchor: seq<int>)
    ensures |anchor| == SlotCount(listSize, churn)
    ensures forall i :: 0 <= i < |anchor| ==> 0 <= anchor[i] < listSize && anchor[i] == AnchorOf(listSize, churn, i)
    ensures forall i, j :: 0 <= i < j < |anchor| ==> anchor[i] < anchor[j]
  {
    var slots := if churn > listSize then listSize else churn;
    var stride := if slots > 0 then listSize / slots else 1;
    if stride < 1 { stride := 1; }
    anchor := [];
    var i := 0;
    while i < slots
      invariant |anchor| == i && (if slots > 0 then i <= slots else i == 0) && stride >= 1
      invariant slots > 0 ==> stride == listSize / slots
      invariant forall k :: 0 <= k < i ==> anchor[k] == Slot(0, stride, k) && 0 <= anchor[k] < listSize
    {
      StrideFits(listSize, slots, i);
      anchor := anchor + [Slot(0, stride, i) % listSize];
      i := i + 1;
    }
    forall k, l | 0 <= k < l < |anchor| ensures anchor[k] < anchor[l] {
      SlotGrows(0, stride, k, l);
    }
  }

  lemma StrideFits(listSize: int, slots: int, i: int)
    requires 0 <= i < slots <= listSize
    ensures var stride := listSize / slots;
            1 <= stride && 0 <= Slot(0, stride, i) < listSize && Slot(0, stride, i) % listSize == Slot(0, stride, i)
  {
    var stride := listSize / slots;
    Quotient(listSize, slots);
    SlotGrows(0, stride, i, slots);
    SlotStep(0, stride, 0);
    if i > 0 { SlotGrows(0, stride, 0, i); }
    SmallRest(Slot(0, stride, i), listSize);
  }

  lemma Quotient(x: int, y: int)
    requires 1 <= y <= x
    ensures x / y >= 1 && y * (x / y) <= x
  {
  }

  lemma SmallRest(x: int, n: int)
    requires 0 <= x < n
    ensures x % n == x
  {
  }

  /**
   The slots that writer `wid` of `nw` toggles in its first `rounds` turns: slots of its
   own only, in bounds if and only if it owns a slot at all, and the first turns go
   through every slot it owns.
   */
  method ToggledSlots(wid: int, nw: int, churn: int, rounds: nat) returns (slots: seq<int>)
    requires 0 <= wid < nw
    ensures |slots| == rounds && forall k :: 0 <= k < rounds ==> exists j: int :: 0 <= j && slots[k] == Slot(wid, nw, j)
    ensures rounds > 0 ==> ((forall k :: 0 <= k < rounds ==> slots[k] < churn) <==> wid < churn)
    ensures forall j: int :: 0 <= j < rounds && Slot(wid, nw, j) < churn ==> slots[j] == Slot(wid, nw, j)
  {
    slots := [];
    var m := 0;
    ghost var turns := 0;
    SlotStep(wid, nw, 0);
    while |slots| < rounds
      invariant 0 <= m && 0 <= turns <= |slots| <= rounds
      invariant forall k :: 0 <= k < |slots| ==> exists j: int :: 0 <= j && slots[k] == Slot(wid, nw, j)
      invariant forall k :: 0 <= k < |slots| ==> (wid < churn ==> slots[k] < churn)
      invariant |slots| > 0 ==> slots[0] == wid
      invariant forall j: int :: 0 <= j < turns ==> slots[j] == Slot(wid, nw, j)
      invariant m == turns == |slots| || (turns < |slots| && Slot(wid, nw, turns) >= churn)
    {
      var slot := Slot(wid, nw, m);
      if slot >= churn {
        m := 0;
        slot := wid;
      }
      assert slot == Slot(wid, nw, m);
      if m == turns == |slots| { turns := turns + 1; }
      slots := slots + [slot];
      m := m + 1;
    }
    forall j: int | 0 <= j < rounds && Slot(wid, nw, j) < churn ensures slots[j] == Slot(wid, nw, j) {
      if turns < j { SlotGrows(wid, nw, turns, j); }
    }
  }
}
