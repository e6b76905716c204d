/**
 The 32-bit lock word as a number: bits 0-7 locked, 8-15 pending, 16-31 tail.  A mask
 of whole bytes is a quotient or remainder by a power of 256, so the field tests of
 the queued-spinlock model are exactly the masked tests of the code.
 */
module LockWord {
  import opened QSpinLock

  const LIMIT := 0x1_0000_0000

  function Pack(w: Word): (val: nat)
    requires w.tail <= MAX_NODES
    ensures val < LIMIT
  {
    (if w.locked then 1 else 0) + (if w.pending then 0x100 else 0) + w.tail * 0x1_0000
  }

  /** The masks LOCKED, ~LOCKED, PENDING, LOCKED_PENDING and TAIL, in that order. */
  lemma WordTests(w: Word)
    requires w.tail <= MAX_NODES
    ensures var val := Pack(w);
            && (val % 0x100 != 0 <==> w.locked)
            && (val / 0x100 != 0 <==> w.pending || w.tail != 0)
            && (val / 0x100 % 0x100 != 0 <==> w.pending)
            && (val % 0x1_0000 != 0 <==> w.locked || w.pending)
            && val / 0x1_0000 == w.tail
            && (val == 0 <==> w == FREE)
            && (val == 0x100 <==> w == PENDING)
  {
    var low := Pack(w.(tail := 0));
    assert Pack(w) == low + w.tail * 0x1_0000 && 0 <= low < 0x1_0000;
    assert Pack(w) / 0x1_0000 == w.tail && Pack(w) % 0x1_0000 == low;
    assert Pack(w) / 0x100 == low / 0x100 + w.tail * 0x100 && Pack(w) % 0x100 == low % 0x100;
  }

  /** The word determines its fields, so a whole-word cmpxchg compares all three. */
  lemma PackInjective(v: Word, w: Word)
    requires v.tail <= MAX_NODES && w.tail <= MAX_NODES
    ensures Pack(v) == Pack(w) <==> v == w
  {
    WordTests(v);
    WordTests(w);
  }
}
