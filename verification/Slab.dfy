/**
 The per-CPU slab allocator of src/bench_list_scale.c.  Every arena carves fixed-size
 blocks out of aligned superblocks and keeps freed blocks on a list threaded through
 their first word.  A freed block finds its way back to the arena that carved it from
 its address alone, because the superblock's header is at the address with its low bits
 cleared.
 */
module Slab {
  const RANGE: int := 0x100_0000
  const HEADER: int := 32

  /** pcpu_round_up(size < 16 ? 16 : size, 16). */
  function ObjSize(size: int): (obj: int)
    ensures obj >= 16 && obj >= size && obj % 16 == 0 && (size >= 16 ==> obj < size + 16)
  {
    var v := if size < 16 then 16 else size;
    (v + 15) / 16 * 16
  }

  /** The superblock that an address belongs to: the address with its low 24 bits cleared. */
  function Origin(p: int): int { p - p % RANGE }

  /** The start of the first aligned superblock in a fresh mapping of two ranges. */
  function AlignUp(raw: int): (base: int)
    requires raw > 0
    ensures base % RANGE == 0 && raw <= base && base + RANGE <= raw + 2 * RANGE
  {
    (raw + RANGE - 1) / RANGE * RANGE
  }

  lemma OriginOf(base: int, off: int)
    requires base % RANGE == 0 && 0 <= off < RANGE
    ensures Origin(base + off) == base
  {
  }

  /** Where the next block goes in a superblock with this bump offset, or in the new one that replaces it. */
  function CarveAt(bump: int, obj: int): int { if bump + obj > RANGE then HEADER else bump }

  /** The block lies wholly in its superblock. */
  ghost predicate Inside(base: int, off: int, obj: int) {
    forall x: int :: base + off <= x < base + off + obj ==> Origin(x) == base
  }

  /**
   All blocks stay inside their superblocks if and only if the rounded object size and the
   header fit into a superblock; the allocator does not check this.
   */
  lemma BlocksFit(size: int, base: int)
    requires base % RANGE == 0
    ensures (forall bump: int :: HEADER <= bump ==> Inside(base, CarveAt(bump, ObjSize(size)), ObjSize(size))) <==> ObjSize(size) + HEADER <= RANGE
  {
    var obj := ObjSize(size);
    if obj + HEADER <= RANGE {
      forall bump: int | HEADER <= bump ensures Inside(base, CarveAt(bump, obj), obj) {
        var off := CarveAt(bump, obj);
        forall x: int | base + off <= x < base + off + obj ensures Origin(x) == base { OriginOf(base, x - base); }
      }
    } else {
      OriginOf(base + RANGE, 0);
      assert CarveAt(HEADER, obj) == HEADER && Origin(base + RANGE) == base + RANGE;
      assert !Inside(base, CarveAt(HEADER, obj), obj);
    }
  }

  datatype Superblock = Superblock(owner: int, bump: int)

  /** A list of blocks linked through their first words. */
  predicate Threaded(word: map<int, int>, head: int, list: seq<int>)
    decreases |list|
  {
    if list == [] then head == 0 else head == list[0] && list[0] in word && Threaded(word, word[list[0]], list[1..])
  }

  predicate Distinct(list: seq<int>) {
    forall i, j :: 0 <= i < j < |list| ==> list[i] != list[j]
  }

  /** Words outside the list do not matter. */
  lemma {:induction false} ThreadedFrame(word: map<int, int>, word': map<int, int>, head: int, list: seq<int>)
    requires Threaded(word, head, list) && forall x: int :: x in list && x in word ==> x in word' && word'[x] == word[x]
    ensures Threaded(word', head, list)
    decreases |list|
  {
    if list != [] {
      ThreadedFrame(word, word', word[head], list[1..]);
    }
  }

  /** Block x lies inside its superblock, past the header and below the bump offset; its arena owns the superblock. */
  predicate Carved(obj: int, narena: int, sbs: map<int, Superblock>, x: int, arena: int) {
    var base := Origin(x);
    && x > 0 && base in sbs && sbs[base].owner == arena && 0 <= arena < narena
    && HEADER <= x - base && x - base + obj <= sbs[base].bump
  }

  /** Superblocks do not overlap, and neither do blocks. */
  ghost predicate BlocksOk(obj: int, narena: int, sbs: map<int, Superblock>, carved: map<int, int>) {
    && (forall b: int :: b in sbs ==> b > 0 && b % RANGE == 0 && 0 <= sbs[b].owner < narena && HEADER <= sbs[b].bump <= RANGE)
    && (forall b: int, d: int :: b in sbs && d in sbs && b < d ==> b + RANGE <= d)
    && (forall x: int :: x in carved ==> Carved(obj, narena, sbs, x, carved[x]))
    && (forall x: int, y: int :: x in carved && y in carved && x < y ==> x + obj <= y)
  }

  /** The block at the bump offset touches no block carved before. */
  lemma NewBlock(obj: int, narena: int, sbs: map<int, Superblock>, carved: map<int, int>, base: int)
    requires obj >= 16 && BlocksOk(obj, narena, sbs, carved) && base in sbs && sbs[base].bump + obj <= RANGE
    ensures var p := base + sbs[base].bump; p !in carved && forall x: int :: x in carved ==> x + obj <= p || p + obj <= x
  {
    forall x: int | x in carved ensures x + obj <= base + sbs[base].bump || base + sbs[base].bump + obj <= x {
      assert Carved(obj, narena, sbs, x, carved[x]);
    }
  }

  lemma CarveOk(obj: int, narena: int, sbs: map<int, Superblock>, carved: map<int, int>, base: int)
    requires obj >= 16 && BlocksOk(obj, narena, sbs, carved) && base in sbs && sbs[base].bump + obj <= RANGE
    ensures base + sbs[base].bump !in carved
    ensures BlocksOk(obj, narena, sbs[base := sbs[base].(bump := sbs[base].bump + obj)], carved[base + sbs[base].bump := sbs[base].owner])
  {
    NewBlock(obj, narena, sbs, carved, base);
    OriginOf(base, sbs[base].bump);
    var sbs' := sbs[base := sbs[base].(bump := sbs[base].bump + obj)];
    forall x: int | x in carved ensures Carved(obj, narena, sbs', x, carved[x]) {
      assert Carved(obj, narena, sbs, x, carved[x]);
    }
  }

  /** Every block is live or on the free list of its arena, never both, and no list repeats a block. */
  ghost predicate ListsOk(narena: int, word: map<int, int>, flist: seq<int>, free: seq<seq<int>>, carved: map<int, int>, live: set<int>) {
    && |flist| == narena && |free| == narena
    && (forall a :: 0 <= a < narena ==> Threaded(word, flist[a], free[a]) && Distinct(free[a]))
    && (forall a, x: int :: 0 <= a < narena && x in free[a] ==> x in carved && carved[x] == a && x !in live && x in word)
    && (forall x: int :: x in live ==> x in carved)
    && (forall x: int :: x in carved && x !in live ==> 0 <= carved[x] < narena && x in free[carved[x]])
  }

  lemma WriteLists(narena: int, word: map<int, int>, flist: seq<int>, free: seq<seq<int>>, carved: map<int, int>, live: set<int>, p: int, v: int)
    requires ListsOk(narena, word, flist, free, carved, live) && (p in live || p !in carved)
    ensures ListsOk(narena, word[p := v], flist, free, carved, live)
  {
    forall a | 0 <= a < narena ensures Threaded(word[p := v], flist[a], free[a]) {
      ThreadedFrame(word, word[p := v], flist[a], free[a]);
    }
  }

  lemma PushLists(narena: int, word: map<int, int>, flist: seq<int>, free: seq<seq<int>>, carved: map<int, int>, live: set<int>, p: int, a: int)
    requires ListsOk(narena, word, flist, free, carved, live) && p in live && p in carved && carved[p] == a && 0 <= a < narena
    ensures ListsOk(narena, word[p := flist[a]], flist[a := p], free[a := [p] + free[a]], carved, live - {p})
  {
    WriteLists(narena, word, flist, free, carved, live, p, flist[a]);
    assert ([p] + free[a])[1..] == free[a];
    assert forall x: int :: x in [p] + free[a] <==> x == p || x in free[a];
  }

  lemma PopLists(narena: int, word: map<int, int>, flist: seq<int>, free: seq<seq<int>>, carved: map<int, int>, live: set<int>, a: int)
    requires ListsOk(narena, word, flist, free, carved, live) && 0 <= a < narena && free[a] != []
    ensures var p := free[a][0];
            p in word && p == flist[a] && ListsOk(narena, word, flist[a := word[p]], free[a := free[a][1..]], carved, live + {p})
  {
    var p := free[a][0];
    assert Threaded(word, flist[a], free[a]);
    assert free[a] == [p] + free[a][1..];
    assert forall x: int :: x in free[a][1..] <==> x in free[a] && x != p;
  }

  lemma CarveLists(narena: int, word: map<int, int>, flist: seq<int>, free: seq<seq<int>>, carved: map<int, int>, live: set<int>, p: int, a: int)
    requires ListsOk(narena, word, flist, free, carved, live) && p !in carved
    ensures ListsOk(narena, word[p := 0], flist, free, carved[p := a], live + {p})
  {
    WriteLists(narena, word, flist, free, carved, live, p, 0);
  }

  lemma InItsPlace(obj: int, narena: int, sbs: map<int, Superblock>, carved: map<int, int>, p: int)
    requires BlocksOk(obj, narena, sbs, carved) && p in carved
    ensures Origin(p) in sbs && Origin(p) + HEADER <= p && p + obj <= Origin(p) + RANGE && sbs[Origin(p)].owner == carved[p]
  {
    assert Carved(obj, narena, sbs, p, carved[p]);
  }

  lemma LiveApart(obj: int, narena: int, sbs: map<int, Superblock>, carved: map<int, int>, live: set<int>, p: int)
    requires BlocksOk(obj, narena, sbs, carved) && p in carved && p !in live && forall x: int :: x in live ==> x in carved
    ensures forall x: int :: x in live ==> p + obj <= x || x + obj <= p
  {
  }

  /** Every arena carves from a superblock of its own. */
  predicate CurrentOk(narena: int, sb: seq<int>, sbs: map<int, Superblock>) {
    |sb| == narena && forall a :: 0 <= a < narena && sb[a] != 0 ==> sb[a] in sbs && sbs[sb[a]].owner == a
  }

  lemma CarveCurrent(narena: int, sb: seq<int>, sbs: map<int, Superblock>, base: int, bump: int)
    requires CurrentOk(narena, sb, sbs) && base in sbs
    ensures CurrentOk(narena, sb, sbs[base := sbs[base].(bump := bump)])
  {
  }

  /** The block at the bump offset of the superblock at base is taken. */
  predicate Bumped(obj: int, base: int, sbs: map<int, Superblock>, sbs': map<int, Superblock>, p: int)
    requires base in sbs
  {
    p == base + sbs[base].bump && sbs' == sbs[base := sbs[base].(bump := sbs[base].bump + obj)]
  }

  /** A block for arena a: the next one of its superblock while it has room, else the first one of a new superblock. */
  predicate Supplied(obj: int, raw: int, a: int, sb: seq<int>, sbs: map<int, Superblock>, sb': seq<int>, sbs': map<int, Superblock>, p: int) {
    && 0 <= a < |sb| && (sb[a] != 0 ==> sb[a] in sbs)
    && if sb[a] != 0 && sbs[sb[a]].bump + obj <= RANGE then sb' == sb && Bumped(obj, sb[a], sbs, sbs', p)
       else
         var base := p - HEADER;
         && raw <= base < raw + RANGE && base % RANGE == 0 && base !in sbs && sb' == sb[a := base]
         && sbs' == sbs[base := Superblock(a, HEADER + obj)]
  }

  lemma SuppliedNew(obj: int, raw: int, a: int, sb: seq<int>, sbs: map<int, Superblock>, base: int, sbs': map<int, Superblock>, p: int)
    requires 0 <= a < |sb| && (sb[a] != 0 ==> sb[a] in sbs && sbs[sb[a]].bump + obj > RANGE)
    requires raw <= base < raw + RANGE && base % RANGE == 0 && base !in sbs && Bumped(obj, base, sbs[base := Superblock(a, HEADER)], sbs', p)
    ensures Supplied(obj, raw, a, sb, sbs, sb[a := base], sbs', p)
  {
    assert p - HEADER == base;
  }

  class SlabCache {
    const obj: int
    const narena: int
    var sbs: map<int, Superblock>          // superblock headers, by base address
    var word: map<int, int>                // the first word of every block
    var flist: seq<int>                    // per arena: head of the free list, or 0
    var sb: seq<int>                       // per arena: current superblock, or 0

    ghost var live: set<int>               // blocks handed out
    ghost var carved: map<int, int>        // every block ever carved, and its arena
    ghost var free: seq<seq<int>>          // per arena: the free list's blocks

    ghost predicate Valid()
      reads this
    {
      && obj >= 16 && obj + HEADER <= RANGE && narena >= 1
      && BlocksOk(obj, narena, sbs, carved) && ListsOk(narena, word, flist, free, carved, live)
      && CurrentOk(narena, sb, sbs)
    }

    /** pcpu_slab_create. */
    constructor (size: int, domains: int)
      requires ObjSize(size) + HEADER <= RANGE
      ensures Valid() && obj == ObjSize(size) && live == {} && carved == map[]
    {
      obj := ObjSize(size);
      narena := if domains > 0 then domains else 1;
      sbs, word := map[], map[];
      flist := seq(if domains > 0 then domains else 1, i => 0);
      sb := seq(if domains > 0 then domains else 1, i => 0);
      live, carved := {}, map[];
      free := seq(if domains > 0 then domains else 1, i => []);
    }

    /** The user writes into a block it holds. */
    method UserWrite(p: int, v: int)
      requires Valid() && p in live
      modifies this`word
      ensures Valid() && word == old(word)[p := v]
    {
      WriteLists(narena, word, flist, free, carved, live, p, v);
      word := word[p := v];
    }

    /** pcpu_slab_free: back to the arena that carved it, whoever frees it. */
    method Free(p: int)
      requires Valid() && p in live
      modifies this`word, this`flist, this`live, this`free
      ensures Valid() && live == old(live) - {p}
      ensures var a := carved[p]; 0 <= a < narena && free == old(free)[a := [p] + old(free)[a]]
    {
      assert Carved(obj, narena, sbs, p, carved[p]);
      var a := sbs[Origin(p)].owner;
      PushLists(narena, word, flist, free, carved, live, p, a);
      word, flist := word[p := flist[a]], flist[a := p];
      live, free := live - {p}, free[a := [p] + free[a]];
    }

    /** pcpu_slab_alloc for slab domain d; `raw` is where mmap would put a new mapping. */
    method Alloc(d: int, raw: int) returns (p: int)
      requires Valid() && raw > 0 && forall b: int :: b in sbs ==> b + RANGE <= raw || raw + 2 * RANGE <= b
      modifies this
      ensures Valid() && p !in old(live) && live == old(live) + {p}
      ensures forall x: int :: x in old(live) ==> p + obj <= x || x + obj <= p
      ensures Origin(p) in sbs && Origin(p) + HEADER <= p && p + obj <= Origin(p) + RANGE
      ensures var a := if 0 <= d < narena then d else 0;
              && sbs[Origin(p)].owner == a
              && (if old(free)[a] != [] then p == old(free)[a][0] && carved == old(carved) && free == old(free)[a := old(free)[a][1..]]
                  else p !in old(carved) && carved == old(carved)[p := a] && free == old(free))
      ensures var a := if 0 <= d < narena then d else 0;
              if old(free)[a] != [] then sb == old(sb) && sbs == old(sbs)
              else Supplied(obj, raw, a, old(sb), old(sbs), sb, sbs, p)
    {
      var a := if 0 <= d < narena then d else 0;
      ListEnds(a);
      if flist[a] != 0 {
        p := Pop(a);
      } else {
        p := Cold(a, raw);
      }
      InItsPlace(obj, narena, sbs, carved, p);
      LiveApart(obj, narena, sbs, carved, old(live), p);
    }

    /** The null pointer is no block. */
    lemma ListEnds(a: int)
      requires Valid() && 0 <= a < narena
      ensures flist[a] == 0 <==> free[a] == []
    {
      assert Threaded(word, flist[a], free[a]);
      assert free[a] != [] ==> free[a][0] in free[a] && Carved(obj, narena, sbs, free[a][0], a);
    }

    /** Hot path: reuse the block freed last. */
    method Pop(a: int) returns (p: int)
      requires Valid() && 0 <= a < narena && flist[a] != 0
      modifies this`flist, this`live, this`free
      ensures Valid() && old(free)[a] != [] && p == old(free)[a][0] && p in carved && p !in old(live) && live == old(live) + {p}
      ensures free == old(free)[a := old(free)[a][1..]]
    {
      ListEnds(a);
      PopLists(narena, word, flist, free, carved, live, a);
      p := flist[a];
      assert p in free[a];
      flist := flist[a := word[p]];
      live, free := live + {p}, free[a := free[a][1..]];
    }

    /** Cold path: from the current superblock, or from a new one if that is full. */
    method Cold(a: int, raw: int) returns (p: int)
      requires Valid() && 0 <= a < narena && raw > 0 && forall b: int :: b in sbs ==> b + RANGE <= raw || raw + 2 * RANGE <= b
      modifies this`sbs, this`sb, this`word, this`live, this`carved
      ensures Valid() && p !in old(carved) && carved == old(carved)[p := a] && live == old(live) + {p}
      ensures Supplied(obj, raw, a, old(sb), old(sbs), sb, sbs, p)
    {
      if sb[a] == 0 || sbs[sb[a]].bump + obj > RANGE {
        NewSuperblock(a, raw);
        p := Carve(a);
        SuppliedNew(obj, raw, a, old(sb), old(sbs), sb[a], sbs, p);
      } else {
        p := Carve(a);
      }
    }

    /** The next block of the arena's superblock. */
    method Carve(a: int) returns (p: int)
      requires Valid() && 0 <= a < narena && sb[a] != 0 && sbs[sb[a]].bump + obj <= RANGE
      modifies this`sbs, this`word, this`live, this`carved
      ensures Valid() && p !in old(carved) && carved == old(carved)[p := a] && live == old(live) + {p}
      ensures sb[a] in old(sbs) && Bumped(obj, sb[a], old(sbs), sbs, p)
    {
      var base := sb[a];
      p := base + sbs[base].bump;
      CarveOk(obj, narena, sbs, carved, base);
      CarveLists(narena, word, flist, free, carved, live, p, a);
      CarveCurrent(narena, sb, sbs, base, sbs[base].bump + obj);
      word := word[p := 0];
      sbs := sbs[base := sbs[base].(bump := sbs[base].bump + obj)];
      carved, live := carved[p := a], live + {p};
    }

    /** pcpu_slab_sb_new: an aligned superblock inside the new mapping. */
    method NewSuperblock(a: int, raw: int)
      requires Valid() && 0 <= a < narena && raw > 0 && forall b: int :: b in sbs ==> b + RANGE <= raw || raw + 2 * RANGE <= b
      modifies this`sbs, this`sb
      ensures Valid() && sb == old(sb)[a := sb[a]] && sbs == old(sbs)[sb[a] := Superblock(a, HEADER)]
      ensures sb[a] != 0 && sb[a] !in old(sbs) && raw <= sb[a] < raw + RANGE && sb[a] % RANGE == 0
    {
      var base := AlignUp(raw);
      NewRange(obj, narena, sbs, carved, base, a);
      sbs := sbs[base := Superblock(a, HEADER)];
      sb := sb[a := base];
    }
  }

  lemma NewRange(obj: int, narena: int, sbs: map<int, Superblock>, carved: map<int, int>, base: int, a: int)
    requires BlocksOk(obj, narena, sbs, carved) && 0 <= a < narena && base > 0 && base % RANGE == 0
    requires forall b: int :: b in sbs ==> b + RANGE <= base || base + RANGE <= b
    ensures base !in sbs && BlocksOk(obj, narena, sbs[base := Superblock(a, HEADER)], carved)
  {
    var sbs' := sbs[base := Superblock(a, HEADER)];
    forall x: int | x in carved ensures Carved(obj, narena, sbs', x, carved[x]) {
      assert Carved(obj, narena, sbs, x, carved[x]);
    }
  }

  // ---- accounting ---------------------------------------------------------

  function Total(free: seq<seq<int>>): int {
    if free == [] then 0 else Total(free[..|free| - 1]) + |free[|free| - 1]|
  }

  function SetOf(list: seq<int>): set<int> { set x | x in list }

  function Listed(free: seq<seq<int>>): set<int> {
    if free == [] then {} else Listed(free[..|free| - 1]) + SetOf(free[|free| - 1])
  }

  lemma {:induction false} DistinctSize(list: seq<int>)
    requires Distinct(list)
    ensures |SetOf(list)| == |list|
  {
    if list != [] {
      var u := list[..|list| - 1];
      DistinctSize(u);
      assert SetOf(list) == SetOf(u) + {list[|list| - 1]};
    } else {
      assert SetOf(list) == {};
    }
  }

  lemma {:induction false} InListed(free: seq<seq<int>>, x: int)
    ensures x in Listed(free) <==> exists a :: 0 <= a < |free| && x in free[a]
  {
    if free != [] {
      var u := free[..|free| - 1];
      InListed(u, x);
      assert forall a :: 0 <= a < |u| ==> u[a] == free[a];
    }
  }

  lemma {:induction false} ListedSize(free: seq<seq<int>>, arena: map<int, int>)
    requires forall a :: 0 <= a < |free| ==> Distinct(free[a])
    requires forall a, x: int :: 0 <= a < |free| && x in free[a] ==> x in arena && arena[x] == a
    ensures |Listed(free)| == Total(free)
  {
    if free != [] {
      var u, last := free[..|free| - 1], free[|free| - 1];
      ListedSize(u, arena);
      DistinctSize(last);
      forall x: int | x in Listed(u) ensures x !in last {
        NotInLast(free, arena, x);
      }
      assert Listed(u) !! SetOf(last);
    }
  }

  lemma NotInLast(free: seq<seq<int>>, arena: map<int, int>, x: int)
    requires free != [] && x in Listed(free[..|free| - 1])
    requires forall a, x: int :: 0 <= a < |free| && x in free[a] ==> x in arena && arena[x] == a
    ensures x !in free[|free| - 1]
  {
    var u := free[..|free| - 1];
    assert forall y: int :: y in free[|free| - 1] ==> y in arena && arena[y] == |free| - 1;
    InListed(u, x);
    var a :| 0 <= a < |u| && x in u[a];
    assert u[a] == free[a] && arena[x] == a != |free| - 1;
  }

  /** Blocks carved so far are the live ones and the free-listed ones; none is counted twice or lost. */
  lemma Accounting(narena: int, word: map<int, int>, flist: seq<int>, free: seq<seq<int>>, carved: map<int, int>, live: set<int>)
    requires ListsOk(narena, word, flist, free, carved, live)
    ensures |carved| == |live| + Total(free)
  {
    ListedSize(free, carved);
    forall x: int ensures (x in carved <==> x in live || x in Listed(free)) && !(x in live && x in Listed(free)) {
      LiveOrListed(narena, word, flist, free, carved, live, x);
    }
    assert carved.Keys == live + Listed(free) && live !! Listed(free);
  }

  lemma LiveOrListed(narena: int, word: map<int, int>, flist: seq<int>, free: seq<seq<int>>, carved: map<int, int>, live: set<int>, x: int)
    requires ListsOk(narena, word, flist, free, carved, live)
    ensures (x in carved <==> x in live || x in Listed(free)) && !(x in live && x in Listed(free))
  {
    InListed(free, x);
  }
}
