/** The block structure of the buddy heap, as a value: which offsets start a block, of which level,
    and whether the block is free. Offsets are relative to the heap base. */
module BuddyBlocks {
  import opened Bits

  const MIN_ALLOC_LOG_2: nat := 4

  datatype Tag = Tag(level: nat, free: bool)

  type Blocks = map<nat, Tag>

  function Size(level: nat): (r: nat)
    ensures r > 0
  {
    Pow2(MIN_ALLOC_LOG_2 + level)
  }

  /** Bytes managed by a heap of `levels` levels: one block of the top level. */
  function Total(levels: nat): nat
    requires levels > 0
  {
    Size(levels - 1)
  }

  predicate Aligned(o: nat, level: nat) {
    o % Size(level) == 0
  }

  /** findBuddy: the offset exclusive-or the block size. */
  function BuddyOf(o: nat, level: nat): nat {
    BitXor(o, Size(level))
  }

  /** getAddress: the offset with the block's own size bit cleared, in a 64-bit word. */
  function ParentOf(o: nat, level: nat): nat
    requires Size(level) < Pow2(64)
  {
    BitAnd(o, BitNot(64, Size(level)))
  }

  // ----- alignment -----

  lemma AlignedDown(o: nat, level: nat, lower: nat)
    requires lower <= level && Aligned(o, level)
    ensures Aligned(o, lower)
  {
    var p, q := Size(lower), Size(level);
    Pow2Divides(MIN_ALLOC_LOG_2 + lower, MIN_ALLOC_LOG_2 + level);
    var c := Pow2(level - lower);
    assert q == c * p;
    var k := o / q;
    assert o == q * k;
    Associate(k, c, p);
    DivUnique(o, p, k * c, 0);
  }

  lemma Associate(k: int, c: int, p: int)
    ensures (c * p) * k == p * (k * c)
  {}

  lemma SizeDoubles(level: nat)
    ensures Size(level + 1) == 2 * Size(level)
  {}

  lemma AlignedSum(a: nat, b: nat, level: nat)
    requires Aligned(a, level) && Aligned(b, level)
    ensures Aligned(a + b, level)
    ensures a <= b ==> Aligned(b - a, level)
  {
    var p := Size(level);
    var x, y := a / p, b / p;
    assert a == p * x && b == p * y;
    DistributeSum(p, x, y);
    DivUnique(a + b, p, x + y, 0);
    DivUnique(b - a, p, y - x, 0);
  }

  lemma DistributeSum(p: int, x: int, y: int)
    ensures p * (x + y) == p * x + p * y
    ensures p * (y - x) == p * y - p * x
  {}

  /** Two different offsets aligned to a block size are at least that size apart. */
  lemma AlignedGap(a: nat, b: nat, level: nat)
    requires Aligned(a, level) && Aligned(b, level) && a < b
    ensures a + Size(level) <= b
  {
    AlignedSum(a, b, level);
    if b - a < Size(level) {
      DivUnique(b - a, Size(level), 0, b - a);
    }
  }

  lemma SizeAligned(level: nat, lower: nat)
    requires lower <= level
    ensures Aligned(Size(level), lower) && Aligned(0, lower)
  {
    assert Aligned(Size(level), level) by {
      DivUnique(Size(level), Size(level), 1, 0);
    }
    AlignedDown(Size(level), level, lower);
  }

  /** An offset aligned to a block size is aligned to twice that size, or off by exactly one
      block; which of the two is the bit that findBuddy toggles and getAddress clears. */
  lemma HalfOf(o: nat, level: nat)
    requires Aligned(o, level)
    ensures (o / Size(level)) % 2 == 0 ==> Aligned(o, level + 1)
    ensures (o / Size(level)) % 2 == 1 ==> o >= Size(level) && Aligned(o - Size(level), level + 1)
  {
    var p := Size(level);
    var k := o / p;
    assert o == p * k;
    var h := k / 2;
    assert Size(level + 1) == 2 * p;
    Reassociate(p, h);
    if k % 2 == 0 {
      DivUnique(o, 2 * p, h, 0);
    } else {
      Distribute(p, 2 * h);
      MulMonotone(p, 0, k);
      DivUnique(o - p, 2 * p, h, 0);
    }
  }

  /** findBuddy names the block's sibling: the other half of the next larger aligned block, which
      starts where getAddress says. Both are therefore pure arithmetic on aligned offsets. */
  lemma BuddyAndParent(o: nat, level: nat)
    requires Aligned(o, level) && MIN_ALLOC_LOG_2 + level < 64 && o < Pow2(64)
    ensures Size(level) < Pow2(64)
    ensures Aligned(ParentOf(o, level), level + 1)
    ensures var p := ParentOf(o, level);
            (o == p && BuddyOf(o, level) == p + Size(level)) ||
            (o == p + Size(level) && BuddyOf(o, level) == p)
  {
    hide Aligned, BitXor, BitAnd;
    Pow2Monotone(MIN_ALLOC_LOG_2 + level, 64);
    XorTogglesBit(o, MIN_ALLOC_LOG_2 + level);
    AndNotClearsBit(o, MIN_ALLOC_LOG_2 + level, 64);
    HalfOf(o, level);
  }

  /** The sibling of an aligned block is a different, disjoint, equally aligned block whose own
      sibling is the first one, and the two share one parent. */
  lemma BuddyIsSibling(o: nat, level: nat)
    requires Aligned(o, level) && MIN_ALLOC_LOG_2 + level < 63 && o < Pow2(63)
    ensures var b := BuddyOf(o, level);
            Aligned(b, level) && BuddyOf(b, level) == o && b < Pow2(64) && Size(level) < Pow2(64) &&
            ParentOf(b, level) == ParentOf(o, level) &&
            (o + Size(level) <= b || b + Size(level) <= o)
  {
    hide Aligned, BitXor, BitAnd, BuddyOf, ParentOf, BitNot;
    var b := BuddyOf(o, level);
    assert Pow2(64) == 2 * Pow2(63);
    Pow2Monotone(MIN_ALLOC_LOG_2 + level, 63);
    BuddyAndParent(o, level);
    var p := ParentOf(o, level);
    SizeDoubles(level);
    AlignedDown(p, level + 1, level);
    SizeAligned(level, level);
    AlignedSum(p, Size(level), level);
    BuddyAndParent(b, level);
    SameParent(p, ParentOf(b, level), level + 1, b);
  }

  lemma SameParent(p: nat, q: nat, level: nat, b: nat)
    requires Aligned(p, level) && Aligned(q, level)
    requires p <= b < p + Size(level) && q <= b < q + Size(level)
    ensures p == q
  {
    if p < q {
      AlignedGap(p, q, level);
    } else if q < p {
      AlignedGap(q, p, level);
    }
  }

  // ----- tiling -----

  ghost predicate Covers(bs: Blocks, o: nat, x: nat) {
    o in bs && o <= x < o + Size(bs[o].level)
  }

  ghost predicate Covered(bs: Blocks, x: nat) {
    exists o :: Covers(bs, o, x)
  }

  /** A block of a used level, aligned to its own size and inside the arena. */
  ghost predicate Placed(o: nat, level: nat, levels: nat)
    requires levels > 0
  {
    1 <= level < levels && Aligned(o, level) && o + Size(level) <= Total(levels)
  }

  ghost predicate Disjoint(bs: Blocks) {
    forall a, b | a in bs && b in bs && a < b :: a + Size(bs[a].level) <= b
  }

  /** The blocks cut the arena into aligned pieces: each is aligned to its own size and inside the
      arena, no two overlap, and every byte belongs to one. Level 0 is never used, so every header
      fits in its own block. */
  ghost predicate Tiling(bs: Blocks, levels: nat) {
    && levels > 0
    && (forall o | o in bs :: Placed(o, bs[o].level, levels))
    && Disjoint(bs)
    && (forall x: nat | x < Total(levels) :: Covered(bs, x))
  }

  /** No two sibling blocks of the same level are both free. */
  ghost predicate Coalesced(bs: Blocks, levels: nat) {
    forall a, b | a in bs && b in bs && bs[a].free && bs[b].free && bs[a].level == bs[b].level
                  && bs[a].level + 1 < levels :: b != BuddyOf(a, bs[a].level)
  }

  /** The allocated blocks, with their levels. */
  ghost function Live(bs: Blocks): map<nat, nat> {
    map o | o in bs && !bs[o].free :: bs[o].level
  }

  const MAX_TILED: nat := 28

  lemma OffsetsFit(levels: nat)
    requires 0 < levels <= MAX_TILED
    ensures Total(levels) <= Pow2(31) <= Pow2(63) < Pow2(64)
  {
    Pow2Monotone(MIN_ALLOC_LOG_2 + levels - 1, 31);
    Pow2Monotone(31, 63);
  }

  /** The sibling of a block lies in the arena, and so does their common parent. */
  lemma SiblingInside(bs: Blocks, levels: nat, o: nat)
    requires Tiling(bs, levels) && levels <= MAX_TILED && o in bs && bs[o].level + 1 < levels
    ensures var l := bs[o].level;
            Size(l) < Pow2(64) &&
            ParentOf(o, l) + Size(l + 1) <= Total(levels) && Size(l + 1) == 2 * Size(l)
    ensures o < Pow2(63)
  {
    hide Aligned, BuddyOf, ParentOf, BitNot, Covered, Disjoint, Size, Pow2;
    var l := bs[o].level;
    OffsetsFit(levels);
    BuddyAndParent(o, l);
    var p := ParentOf(o, l);
    SizeDoubles(l);
    SizeAligned(levels - 1, l + 1);
    AlignedGap(p, Total(levels), l + 1);
  }

  /** The address freeCust computes for the sibling is the start of a current block, at most as
      large as the block being freed: the header read there is never stale. */
  lemma SiblingIsBlock(bs: Blocks, levels: nat, o: nat)
    requires Tiling(bs, levels) && levels <= MAX_TILED && o in bs && bs[o].level + 1 < levels
    ensures BuddyOf(o, bs[o].level) in bs
    ensures bs[BuddyOf(o, bs[o].level)].level <= bs[o].level
  {
    hide Size, Aligned, BuddyOf, ParentOf, BitNot;
    var l := bs[o].level;
    SiblingInside(bs, levels, o);
    BuddyAndParent(o, l);
    BuddyIsSibling(o, l);
    var b := BuddyOf(o, l);
    assert Covered(bs, b);
    var c: nat :| Covers(bs, c, b);
    assert Placed(c, bs[c].level, levels) && Placed(o, l, levels);
    if bs[c].level <= l {
      AlignedStart(b, l, c, bs[c].level);
    } else {
      CoarserCovers(ParentOf(o, l), l + 1, c, bs[c].level, b);
      assert false;
    }
  }

  /** An offset aligned to l inside an aligned block no larger than l is that block's start. */
  lemma AlignedStart(b: nat, l: nat, c: nat, lc: nat)
    requires lc <= l && Aligned(b, l) && Aligned(c, lc) && c <= b < c + Size(lc)
    ensures b == c
  {
    AlignedDown(b, l, lc);
    if c < b {
      AlignedGap(c, b, lc);
    }
  }

  /** A block that meets an aligned region no larger than itself contains that region. */
  lemma CoarserCovers(p: nat, lp: nat, c: nat, lc: nat, x: nat)
    requires lp <= lc && Aligned(p, lp) && Aligned(c, lc)
    requires p <= x < p + Size(lp) && c <= x < c + Size(lc)
    ensures c <= p && p + Size(lp) <= c + Size(lc)
  {
    AlignedDown(c, lc, lp);
    SizeAligned(lc, lp);
    AlignedSum(c, Size(lc), lp);
    InsideLarger(p, c, c + Size(lc), lp, x);
  }

  /** An aligned block that meets a span with coarser aligned ends lies inside it. */
  lemma InsideLarger(p: nat, lo: nat, hi: nat, level: nat, x: nat)
    requires Aligned(p, level) && Aligned(lo, level) && Aligned(hi, level)
    requires p <= x < p + Size(level) && lo <= x < hi
    ensures lo <= p && p + Size(level) <= hi
  {
    if p < lo {
      AlignedGap(p, lo, level);
    }
    AlignedGap(p, hi, level);
  }

  // ----- splitting and joining -----

  /** One fragmentation step: the block keeps its lower half, still withheld, and its upper half
      becomes a free block. */
  function Halve(bs: Blocks, o: nat): Blocks
    requires o in bs && bs[o].level > 0
  {
    var l := bs[o].level - 1;
    bs[o := Tag(l, false)][o + Size(l) := Tag(l, true)]
  }

  /** One coalescing step: a block and its sibling become their parent, still withheld. */
  function Join(bs: Blocks, o: nat): Blocks
    requires o in bs && Size(bs[o].level) < Pow2(64)
  {
    var l := bs[o].level;
    (bs - {o, BuddyOf(o, l)})[ParentOf(o, l) := Tag(l + 1, false)]
  }

  /** The two halves of a block are siblings. */
  lemma HalvesAreSiblings(o: nat, l: nat)
    requires Aligned(o, l + 1) && MIN_ALLOC_LOG_2 + l < 63 && o < Pow2(63)
    ensures Size(l + 1) == 2 * Size(l)
    ensures Aligned(o, l) && Aligned(o + Size(l), l)
    ensures BuddyOf(o, l) == o + Size(l)
  {
    AlignedDown(o, l + 1, l);
    SizeAligned(l, l);
    AlignedSum(o, Size(l), l);
    assert Pow2(64) == 2 * Pow2(63);
    BuddyAndParent(o, l);
    if o != ParentOf(o, l) {
      AlignedGap(ParentOf(o, l), o, l + 1);
    }
  }

  /** What splitting a block relies on: its upper half does not start a block yet, and that half is
      where findBuddy points once the block's level has been lowered. */
  lemma UpperHalf(bs: Blocks, levels: nat, o: nat)
    requires Tiling(bs, levels) && levels <= MAX_TILED && o in bs && bs[o].level > 1
    ensures var l := bs[o].level - 1;
            Size(l + 1) == 2 * Size(l) && o + Size(l) !in bs && BuddyOf(o, l) == o + Size(l) &&
            Placed(o, l, levels) && Placed(o + Size(l), l, levels)
  {
    hide Size, Aligned, BuddyOf, Covered, BitXor, Pow2;
    var l := bs[o].level - 1;
    assert Placed(o, l + 1, levels);
    OffsetsFit(levels);
    HalvesAreSiblings(o, l);
    HalvePlaced(o, l, levels);
  }

  lemma HalveKeepsTiling(bs: Blocks, levels: nat, o: nat)
    requires Tiling(bs, levels) && levels <= MAX_TILED && o in bs && bs[o].level > 1
    ensures Tiling(Halve(bs, o), levels)
  {
    UpperHalf(bs, levels, o);
    HalveDisjoint(bs, o);
    hide Disjoint, Size, Covered;
    forall x: nat | x < Total(levels)
      ensures Covered(Halve(bs, o), x)
    {
      HalveCovers(bs, o, x);
    }
  }

  lemma HalvePlaced(o: nat, l: nat, levels: nat)
    requires levels > 0 && l > 0 && Placed(o, l + 1, levels)
    requires Aligned(o, l) && Aligned(o + Size(l), l)
    ensures Placed(o, l, levels) && Placed(o + Size(l), l, levels)
  {
    assert Size(l + 1) == 2 * Size(l);
  }

  lemma HalveDisjoint(bs: Blocks, o: nat)
    requires Disjoint(bs) && o in bs && bs[o].level > 0
    ensures Disjoint(Halve(bs, o))
  {
    var l := bs[o].level - 1;
    assert Size(l + 1) == 2 * Size(l);
  }

  lemma HalveCovers(bs: Blocks, o: nat, x: nat)
    requires Covered(bs, x) && o in bs && bs[o].level > 0 && o + Size(bs[o].level - 1) !in bs
    ensures Covered(Halve(bs, o), x)
  {
    var l := bs[o].level - 1;
    assert Size(l + 1) == 2 * Size(l);
    var c: nat :| Covers(bs, c, x);
    assert Covers(Halve(bs, o), if c != o then c else if x < o + Size(l) then o else o + Size(l), x);
  }

  lemma JoinKeepsTiling(bs: Blocks, levels: nat, o: nat)
    requires Tiling(bs, levels) && levels <= MAX_TILED && o in bs && bs[o].level + 1 < levels
    requires BuddyOf(o, bs[o].level) in bs && bs[BuddyOf(o, bs[o].level)].level == bs[o].level
    ensures Size(bs[o].level) < Pow2(64)
    ensures Tiling(Join(bs, o), levels)
  {
    hide Size, Aligned, BuddyOf, ParentOf, Disjoint;
    var l := bs[o].level;
    assert Placed(o, l, levels);
    SiblingInside(bs, levels, o);
    BuddyAndParent(o, l);
    var p := ParentOf(o, l);
    var b := BuddyOf(o, l);
    var bs' := Join(bs, o);
    JoinDisjoint(bs, o);
    forall x: nat | x < Total(levels)
      ensures Covered(bs', x)
    {
      assert Covered(bs, x);
      var c: nat :| Covers(bs, c, x);
      assert Covers(bs', if c == o || c == b then p else c, x);
    }
  }

  lemma JoinDisjoint(bs: Blocks, o: nat)
    requires Disjoint(bs) && o in bs && Size(bs[o].level) < Pow2(64)
    requires var l := bs[o].level; var p := ParentOf(o, l);
             BuddyOf(o, l) in bs && bs[BuddyOf(o, l)].level == l &&
             ((o == p && BuddyOf(o, l) == p + Size(l)) || (o == p + Size(l) && BuddyOf(o, l) == p))
    ensures Disjoint(Join(bs, o))
  {
    hide Size, BuddyOf, ParentOf, Disjoint;
    var l := bs[o].level;
    var p := ParentOf(o, l);
    var s := Size(l);
    SizeDoubles(l);
    assert p in bs && p + s in bs && {o, BuddyOf(o, l)} == {p, p + s};
    MergeDisjoint(bs, p, l, p + s);
  }

  lemma MergeDisjoint(bs: Blocks, p: nat, l: nat, q: nat)
    requires Disjoint(bs) && p in bs && q in bs && q == p + Size(l)
    requires bs[p].level == l && bs[q].level == l
    ensures Disjoint((bs - {p, q})[p := Tag(l + 1, false)])
  {
    assert Size(l + 1) == 2 * Size(l);
    var bs' := (bs - {p, q})[p := Tag(l + 1, false)];
    forall a, b | a in bs' && b in bs' && a < b
      ensures a + Size(bs'[a].level) <= b
    {
      if a == p {
        assert q <= b;
      }
    }
  }

  /** Splitting a withheld block frees its upper half, whose sibling is the withheld lower one. */
  lemma HalveKeepsCoalesced(bs: Blocks, levels: nat, o: nat)
    requires Tiling(bs, levels) && levels <= MAX_TILED && o in bs && bs[o].level > 1
    requires Coalesced(bs, levels) && !bs[o].free
    ensures Coalesced(Halve(bs, o), levels)
  {
    var l := bs[o].level - 1;
    UpperHalf(bs, levels, o);
    OnlySibling(o, o + Size(l), l, levels);
    forall a | a in bs && bs[a].level == l && BuddyOf(a, l) == o + Size(l)
      ensures a == o
    {
      OnlySibling(a, o + Size(l), l, levels);
    }
    AddFree(bs[o := Tag(l, false)], levels, o + Size(l), l);
  }

  /** A free block can join a coalesced heap when its sibling, if present, is not free at its
      level. */
  lemma AddFree(bs: Blocks, levels: nat, o: nat, l: nat)
    requires Coalesced(bs, levels)
    requires BuddyOf(o, l) != o
    requires BuddyOf(o, l) in bs && l + 1 < levels ==> bs[BuddyOf(o, l)] != Tag(l, true)
    requires forall a | a in bs && bs[a] == Tag(l, true) && l + 1 < levels :: BuddyOf(a, l) != o
    ensures Coalesced(bs[o := Tag(l, true)], levels)
  {}

  /** Siblings are mutual. */
  lemma OnlySibling(a: nat, b: nat, l: nat, levels: nat)
    requires 0 < levels <= MAX_TILED && Placed(a, l, levels)
    ensures b == BuddyOf(a, l) ==> a == BuddyOf(b, l) && a != b
  {
    OffsetsFit(levels);
    BuddyIsSibling(a, l);
  }

  /** A withheld block whose sibling is not a free block of its level can be released. */
  lemma ReleaseKeepsCoalesced(bs: Blocks, levels: nat, o: nat)
    requires Tiling(bs, levels) && levels <= MAX_TILED && o in bs && Coalesced(bs, levels)
    requires var l := bs[o].level; var b := BuddyOf(o, l);
             l + 1 == levels || (b in bs && !(bs[b].level == l && bs[b].free))
    ensures Tiling(bs[o := bs[o].(free := true)], levels)
    ensures Coalesced(bs[o := bs[o].(free := true)], levels)
  {
    var l := bs[o].level;
    assert Placed(o, l, levels);
    OnlySibling(o, BuddyOf(o, l), l, levels);
    forall a | a in bs && bs[a].level == l && BuddyOf(a, l) == o
      ensures a == BuddyOf(o, l)
    {
      OnlySibling(a, o, l, levels);
    }
    AddFree(bs, levels, o, l);
    RetagKeepsTiling(bs, levels, o, true);
  }

  lemma WithholdKeepsCoalesced(bs: Blocks, levels: nat, o: nat)
    requires Coalesced(bs, levels) && o in bs
    ensures Coalesced(bs[o := bs[o].(free := false)], levels)
  {}

  lemma RetagKeepsTiling(bs: Blocks, levels: nat, o: nat, free: bool)
    requires Tiling(bs, levels) && o in bs
    ensures Tiling(bs[o := bs[o].(free := free)], levels)
  {
    var bs' := bs[o := bs[o].(free := free)];
    forall x: nat | x < Total(levels)
      ensures Covered(bs', x)
    {
      assert Covered(bs, x);
      var c: nat :| Covers(bs, c, x);
      assert Covers(bs', c, x);
    }
  }

  // ----- what full coalescing means -----

  /** In a coalesced heap, an aligned region none of whose bytes is allocated is not cut up: it
      contains no block smaller than itself. */
  lemma FreeRegionIsWhole(bs: Blocks, levels: nat, r: nat, lr: nat, o: nat)
    requires Tiling(bs, levels) && levels <= MAX_TILED && Coalesced(bs, levels)
    requires lr < levels && Aligned(r, lr)
    requires forall a | a in bs && r <= a < r + Size(lr) :: bs[a].free
    requires o in bs && r <= o < r + Size(lr)
    ensures bs[o].level >= lr
    decreases bs[o].level
  {
    var l := bs[o].level;
    if l < lr {
      SiblingIsBlock(bs, levels, o);
      SiblingInside(bs, levels, o);
      BuddyAndParent(o, l);
      BuddyIsSibling(o, l);
      var b := BuddyOf(o, l);
      CoarserCovers(ParentOf(o, l), l + 1, r, lr, o);
      assert bs[b].level < l;
      FreeRegionIsWhole(bs, levels, r, lr, b);
    }
  }

  /** Once nothing is allocated the heap is the single top-level block memInit made. */
  lemma AllFreeIsOneBlock(bs: Blocks, levels: nat)
    requires Tiling(bs, levels) && levels <= MAX_TILED && Coalesced(bs, levels)
    requires Live(bs) == map[]
    ensures bs == map[0 := Tag(levels - 1, true)]
  {
    hide Aligned, Coalesced;
    SizeAligned(levels - 1, levels - 1);
    assert forall a | a in bs :: a in Live(bs) || bs[a].free;
    assert Covered(bs, 0);
    var c :| Covers(bs, c, 0);
    FreeRegionIsWhole(bs, levels, 0, levels - 1, c);
    var end := Total(levels);
    forall o | o in bs
      ensures o == 0
    {
      assert Placed(o, bs[o].level, levels) && (o == 0 || end <= o);
    }
  }

  /** A coalesced heap is determined by its allocated blocks alone: every free block of one is a
      free block of any other with the same allocated blocks. */
  lemma FreeBlockIsForced(bs: Blocks, cs: Blocks, levels: nat, o: nat)
    requires Tiling(bs, levels) && Coalesced(bs, levels)
    requires Tiling(cs, levels) && Coalesced(cs, levels)
    requires levels <= MAX_TILED && Live(bs) == Live(cs)
    requires o in bs && bs[o].free
    ensures o in cs && cs[o] == bs[o]
  {
    hide Size, Aligned, Coalesced, BuddyOf;
    var l := bs[o].level;
    SameLive(bs, cs);
    assert Covered(cs, o);
    var c: nat :| Covers(cs, c, o);
    var lc := cs[c].level;
    assert cs[c].free;
    if lc > l {
      assert forall a | a in bs && c <= a < c + Size(lc) :: bs[a].free;
      FreeRegionIsWhole(bs, levels, c, lc, o);
      assert false;
    } else {
      AlignedStart(o, l, c, lc);
      if lc < l {
        assert forall a | a in cs && o <= a < o + Size(l) :: cs[a].free;
        FreeRegionIsWhole(cs, levels, o, l, o);
      }
    }
  }

  lemma SameLive(bs: Blocks, cs: Blocks)
    requires Live(bs) == Live(cs)
    ensures forall o | o in bs && !bs[o].free :: o in cs && cs[o] == bs[o]
    ensures forall o | o in cs && !cs[o].free :: o in bs && cs[o] == bs[o]
  {
    forall o | o in bs && !bs[o].free
      ensures o in cs && cs[o] == bs[o]
    {
      assert o in Live(bs) && Live(bs)[o] == bs[o].level;
      assert o in Live(cs);
    }
    forall o | o in cs && !cs[o].free
      ensures o in bs && cs[o] == bs[o]
    {
      assert o in Live(cs) && Live(cs)[o] == cs[o].level;
      assert o in Live(bs);
    }
  }

  /** Allocation order, free order and the number of splits and joins on the way leave no trace:
      two reachable heaps with the same allocated blocks have the same blocks. */
  lemma LiveDeterminesBlocks(bs: Blocks, cs: Blocks, levels: nat)
    requires Tiling(bs, levels) && Coalesced(bs, levels)
    requires Tiling(cs, levels) && Coalesced(cs, levels)
    requires levels <= MAX_TILED && Live(bs) == Live(cs)
    ensures bs == cs
  {
    SameLive(bs, cs);
    forall o | o in bs
      ensures o in cs && cs[o] == bs[o]
    {
      if bs[o].free {
        FreeBlockIsForced(bs, cs, levels, o);
      }
    }
    forall o | o in cs
      ensures o in bs
    {
      if cs[o].free {
        FreeBlockIsForced(cs, bs, levels, o);
      }
    }
  }
}
