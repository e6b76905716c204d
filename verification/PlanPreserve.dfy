/** Every step of the plan / lock / validate protocol keeps the invariant. */
module PlanPreserve {
  import opened Lockset
  import opened PlanLock
  import opened PlanInvariant

  ghost predicate OnlyPc(s: State, s': State, t: int) {
    |s'.pc| == |s.pc| && 0 <= t < |s.pc| && forall u :: 0 <= u < |s.pc| && u != t ==> s'.pc[u] == s.pc[u]
  }

  // ---- locks --------------------------------------------------------------

  /** The step neither takes nor releases a lock. */
  lemma SameLocks(c: Config, s: State, s': State, t: int)
    requires LockInv(c, s) && OnlyPc(s, s', t) && s'.owner == s.owner && CountInv(c, s'.pc[t])
    requires forall k: int :: HoldsKey(s'.pc[t], k) <==> HoldsKey(s.pc[t], k)
    ensures LockInv(c, s')
  {
    assert forall u: int :: 0 <= u < |s.pc| ==> u == t || s'.pc[u] == s.pc[u];
    assert OwnInv(s'.owner, s'.pc);
  }

  lemma Acquires(c: Config, s: State, s': State, t: int, key: int)
    requires LockInv(c, s) && OnlyPc(s, s', t) && CountInv(c, s'.pc[t]) && key !in s.owner && s'.owner == s.owner[key := t]
    requires forall k: int :: HoldsKey(s'.pc[t], k) <==> HoldsKey(s.pc[t], k) || k == key
    ensures LockInv(c, s')
  {
    assert forall u: int :: 0 <= u < |s.pc| ==> u == t || s'.pc[u] == s.pc[u];
    assert OwnInv(s'.owner, s'.pc);
  }

  lemma Releases(c: Config, s: State, s': State, t: int, key: int)
    requires LockInv(c, s) && OnlyPc(s, s', t) && CountInv(c, s'.pc[t]) && s'.owner == s.owner - {key} && HoldsKey(s.pc[t], key)
    requires forall k: int :: HoldsKey(s'.pc[t], k) <==> HoldsKey(s.pc[t], k) && k != key
    ensures LockInv(c, s')
  {
    assert forall u: int :: 0 <= u < |s.pc| ==> u == t || s'.pc[u] == s.pc[u];
    assert OwnInv(s'.owner, s'.pc);
  }

  // ---- steps that store nothing -------------------------------------------

  predicate Quiet(pc: Pc) { !pc.LinkPrev? && !pc.LinkNext? && !pc.UnPrev? && !pc.UnNext? }

  /** The list does not care about the positions of writers that are not in the middle of a commit. */
  lemma MemFrame(c: Config, s: State, h: Past, s': State, t: int)
    requires MemInv(c, s, h) && OnlyPc(s, s', t) && s'.heap == s.heap && Quiet(s.pc[t]) && Quiet(s'.pc[t])
    requires forall x: int :: x in s'.known ==> x in h.linked
    requires forall k: int :: k in s.owner && s.owner[k] != t ==> k in s'.owner && s'.owner[k] == s.owner[k]
    ensures MemInv(c, s', h)
  {
    FrameRing(c, s, h.ring, s', t);
    FrameNodes(c, s, h, s', t);
    assert SetsInv(s', h);
  }

  lemma FrameRing(c: Config, s: State, ring: seq<int>, s': State, t: int)
    requires RingInv(c, s, ring) && OnlyPc(s, s', t) && s'.heap == s.heap && Quiet(s.pc[t]) && Quiet(s'.pc[t])
    requires forall k: int :: k in s.owner && s.owner[k] != t ==> k in s'.owner && s'.owner[k] == s.owner[k]
    ensures RingInv(c, s', ring)
  {
    forall i: int | 0 <= i < |ring| ensures BackInv(c, s', ring, i) {
      assert BackInv(c, s, ring, i);
    }
  }

  lemma FrameNodes(c: Config, s: State, h: Past, s': State, t: int)
    requires NodesInv(c, s, h) && OnlyPc(s, s', t) && s'.heap == s.heap && Quiet(s.pc[t]) && Quiet(s'.pc[t])
    requires forall k: int :: k in s.owner && s.owner[k] != t ==> k in s'.owner && s'.owner[k] == s.owner[k]
    ensures NodesInv(c, s', h)
  {
    forall x: int | x in h.linked ensures NodeInv(c, s', h, x) {
      assert NodeInv(c, s, h, x);
    }
  }

  /** A writer's own knowledge is about the memory alone. */
  lemma PcSame(c: Config, s: State, h: Past, s': State, t: int, pc: Pc)
    requires PcInv(c, s, h, t, pc) && s'.heap == s.heap
    ensures PcInv(c, s', h, t, pc)
  {
  }

  lemma Assemble(c: Config, s: State, h: Past, s': State, t: int)
    requires Inv(c, s, h) && OnlyPc(s, s', t) && s'.heap == s.heap && !s'.fault
    requires LockInv(c, s') && MemInv(c, s', h) && PcInv(c, s, h, t, s'.pc[t])
    ensures Inv(c, s', h)
  {
    forall u | 0 <= u < |s'.pc| ensures PcInv(c, s', h, u, s'.pc[u]) {
      PcSame(c, s, h, s', u, s'.pc[u]);
    }
  }

  lemma BeginKept(c: Config, s: State, h: Past, m: Move)
    requires Inv(c, s, h) && Enabled(c, s, m) && m.Begin?
    ensures Inv(c, Step(c, s, m), h)
  {
    var s' := Step(c, s, m);
    SameLocks(c, s, s', m.t);
    MemFrame(c, s, h, s', m.t);
    Assemble(c, s, h, s', m.t);
  }

  lemma LoadKept(c: Config, s: State, h: Past, m: Move)
    requires Inv(c, s, h) && Enabled(c, s, m) && m.Run? && (s.pc[m.t].Load1? || s.pc[m.t].Load2?)
    ensures Inv(c, Step(c, s, m), h)
  {
    var t, pc := m.t, s.pc[m.t];
    assert PcInv(c, s, h, t, pc) && NodeInv(c, s, h, pc.op.at);
    assert Safe(s.heap, pc);
    var s' := Step(c, s, m);
    if s'.pc[t].Lock? { MakesKeys(c, pc.op, s'.pc[t].pl.pred, s'.pc[t].pl.succ); }
    SameLocks(c, s, s', t);
    MemFrame(c, s, h, s', t);
    Assemble(c, s, h, s', t);
  }

  lemma CheckKept(c: Config, s: State, h: Past, m: Move)
    requires Inv(c, s, h) && Enabled(c, s, m) && m.Run? && s.pc[m.t].Check?
    ensures Inv(c, Step(c, s, m), h)
  {
    var t, pc := m.t, s.pc[m.t];
    assert PcInv(c, s, h, t, pc) && NodeInv(c, s, h, pc.pl.op.at) && NodeInv(c, s, h, pc.pl.succ);
    assert Safe(s.heap, pc);
    var s' := Step(c, s, m);
    assert CountInv(c, pc);
    SameLocks(c, s, s', t);
    MemFrame(c, s, h, s', t);
    Assemble(c, s, h, s', t);
  }

  lemma LockKept(c: Config, s: State, h: Past, m: Move)
    requires Inv(c, s, h) && Enabled(c, s, m) && m.Run? && s.pc[m.t].Lock?
    ensures Inv(c, Step(c, s, m), h)
  {
    var t, pc := m.t, s.pc[m.t];
    assert PcInv(c, s, h, t, pc) && CountInv(c, pc) && Safe(s.heap, pc);
    var s', keys := Step(c, s, m), pc.pl.keys;
    assert keys[..|keys|] == keys && keys[..pc.i + 1] == keys[..pc.i] + [keys[pc.i]];
    Acquires(c, s, s', t, keys[pc.i]);
    MemFrame(c, s, h, s', t);
    Assemble(c, s, h, s', t);
  }

  /** Unlocking the last of the locks [0, i) leaves the others. */
  lemma LastKey(keys: seq<int>, i: int)
    requires Ascending(keys) && 0 < i <= |keys|
    ensures forall k: int :: k in keys[..i - 1] <==> k in keys[..i] && k != keys[i - 1]
  {
    assert keys[..i] == keys[..i - 1] + [keys[i - 1]];
  }

  lemma UndoKept(c: Config, s: State, h: Past, m: Move)
    requires Inv(c, s, h) && Enabled(c, s, m) && m.Run? && s.pc[m.t].Undo?
    ensures Inv(c, Step(c, s, m), h)
  {
    var t, pc, s' := m.t, s.pc[m.t], Step(c, s, m);
    var key := pc.pl.keys[pc.i - 1];
    assert PcInv(c, s, h, t, pc) && CountInv(c, pc) && Safe(s.heap, pc);
    UndoLocks(c, s, m);
    Releases(c, s, s', t, key);
    MemFrame(c, s, h, s', t);
    Assemble(c, s, h, s', t);
  }

  lemma UndoLocks(c: Config, s: State, m: Move)
    requires Enabled(c, s, m) && m.Run? && s.pc[m.t].Undo? && CountInv(c, s.pc[m.t]) && Safe(s.heap, s.pc[m.t])
    ensures var s', pc := Step(c, s, m), s.pc[m.t];
            var key := pc.pl.keys[pc.i - 1];
            && s'.owner == s.owner - {key} && HoldsKey(pc, key) && CountInv(c, s'.pc[m.t])
            && forall k: int :: HoldsKey(s'.pc[m.t], k) <==> HoldsKey(pc, k) && k != key
  {
    var pc := s.pc[m.t];
    LastKey(pc.pl.keys, pc.i);
    assert pc.pl.keys[pc.i - 1] in pc.pl.keys[..pc.i];
  }

  lemma ReleaseKept(c: Config, s: State, h: Past, m: Move)
    requires Inv(c, s, h) && Enabled(c, s, m) && m.Run? && s.pc[m.t].Release?
    ensures Inv(c, Step(c, s, m), h)
  {
    var t, pc, s' := m.t, s.pc[m.t], Step(c, s, m);
    var key := pc.pl.keys[pc.i - 1];
    assert PcInv(c, s, h, t, pc) && CountInv(c, pc) && Safe(s.heap, pc);
    ReleaseLocks(c, s, m);
    Releases(c, s, s', t, key);
    MemFrame(c, s, h, s', t);
    Assemble(c, s, h, s', t);
  }

  lemma ReleaseLocks(c: Config, s: State, m: Move)
    requires Enabled(c, s, m) && m.Run? && s.pc[m.t].Release? && CountInv(c, s.pc[m.t]) && Safe(s.heap, s.pc[m.t])
    ensures var s', pc := Step(c, s, m), s.pc[m.t];
            var key := pc.pl.keys[pc.i - 1];
            && s'.owner == s.owner - {key} && HoldsKey(pc, key) && CountInv(c, s'.pc[m.t])
            && forall k: int :: HoldsKey(s'.pc[m.t], k) <==> HoldsKey(pc, k) && k != key
  {
    var pc := s.pc[m.t];
    LastKey(pc.pl.keys, pc.i);
    assert pc.pl.keys[pc.i - 1] in pc.pl.keys[..pc.i];
  }
}
