/** buddy.c: the buddy allocator. Headers are read and written in the heap being managed; the ghost
    fields record which offsets currently start a block and which blocks each list threads. */
module Buddy {
  import opened Bits
  import opened BuddyBlocks
  import opened BuddyList

  const HEADER_SIZE: nat := 24
  const MAX_LEVELS: nat := 28

  /** A pointer handed to or received from a caller, as an offset from the heap base. */
  datatype Ptr = NULL | At(offset: nat)

  /** What a call to mallocCust does: it returns, or it pops a list that does not exist because no
      level had a block (the out-of-memory test compares an unsigned byte with -1). */
  datatype Outcome = Returned(ptr: Ptr) | WildPop(level: nat)

  /** The int in which mallocCust keeps the request plus its header: the sum is truncated to 32
      bits and read as signed. */
  function RealBytes(nbytes: nat): int {
    var low := (nbytes + HEADER_SIZE) % 0x1_0000_0000;
    if low >= 0x8000_0000 then low - 0x1_0000_0000 else low
  }

  /** The size test of mallocCust; the int is converted to an unsigned 64-bit word before it is
      compared, so a negative one is always too large. */
  predicate Rejected(nbytes: nat, maxMemSize: nat) {
    nbytes == 0 || RealBytes(nbytes) < 0 || RealBytes(nbytes) > maxMemSize + 1
  }

  /** The least level from `from` up whose blocks hold the given number of bytes. */
  function LevelFrom(bytes: nat, from: nat): (r: nat)
    ensures r >= from && bytes <= Size(r)
    ensures r > from ==> Size(r - 1) < bytes
    decreases bytes - Size(from)
  {
    if bytes <= Size(from) then from else LevelFrom(bytes, from + 1)
  }

  function LevelFor(bytes: nat): nat {
    LevelFrom(bytes, 0)
  }

  lemma LevelForUnique(bytes: nat, l: nat)
    requires bytes <= Size(l) && (l > 0 ==> Size(l - 1) < bytes)
    ensures LevelFor(bytes) == l
  {
    var r := LevelFor(bytes);
    if r < l {
      Pow2Monotone(MIN_ALLOC_LOG_2 + r, MIN_ALLOC_LOG_2 + l - 1);
    } else if l < r {
      Pow2Monotone(MIN_ALLOC_LOG_2 + l, MIN_ALLOC_LOG_2 + r - 1);
    }
  }

  /** findIdealLevel: from the position of the highest set bit, rounded up unless the size is a
      power of two. Zero wraps round the unsigned byte. */
  method FindIdealLevel(bytes: nat) returns (level: nat)
    requires bytes < 0x1_0000_0000
    ensures level == if bytes == 0 then 252 else LevelFor(bytes)
  {
    var log := Log2(bytes);
    var bytesToLog: nat := if log == -1 then 255 else log;
    if bytesToLog < MIN_ALLOC_LOG_2 {
      Pow2Monotone(bytesToLog + 1, MIN_ALLOC_LOG_2);
      LevelForUnique(bytes, 0);
      return 0;
    }
    bytesToLog := bytesToLog - MIN_ALLOC_LOG_2;
    if bytes > 0 {
      PowerOfTwoTest(bytes, log);
      if bytesToLog > 0 {
        Pow2Monotone(log - 1, log);
      }
    }
    if bytes > 0 && BitAnd(bytes, bytes - 1) == 0 {
      LevelForUnique(bytes, bytesToLog);
      return bytesToLog;
    }
    if bytes > 0 {
      LevelForUnique(bytes, bytesToLog + 1);
    }
    return bytesToLog + 1;
  }

  // ----- the invariant -----

  /** Every list head is threaded. */
  ghost predicate Threads(m: Memory, lists: seq<seq<nat>>) {
    forall i: nat | i < |lists| :: Threaded(m, i, lists[i])
  }

  /** List i holds exactly the free blocks of level i. */
  ghost predicate Filed(bs: Blocks, lists: seq<seq<nat>>) {
    forall i: nat, o: nat | i < |lists| :: o in lists[i] <==> (o in bs && bs[o] == Tag(i, true))
  }

  /** The header of every block tells its level and whether it is free; `hole` is a block in the
      hands of the allocator, whose free mark is not settled yet. */
  ghost predicate Stamped(m: Memory, bs: Blocks, hole: Ptr) {
    forall o | o in bs :: Block(o) in m && m[Block(o)].level == bs[o].level &&
                          (hole == At(o) || m[Block(o)].free == bs[o].free)
  }

  /** Memory exists at every address the allocator can form. */
  ghost predicate Mapped(m: Memory, levels: nat) {
    && (forall i: nat | i < levels :: Head(i) in m)
    && (forall o: nat | levels > 0 && o < Total(levels) && Aligned(o, 1) :: Block(o) in m)
  }

  ghost predicate Consistent(m: Memory, bs: Blocks, lists: seq<seq<nat>>, levels: nat, hole: Ptr) {
    && 2 <= levels <= 27
    && |lists| == levels
    && Mapped(m, levels)
    && Tiling(bs, levels)
    && Coalesced(bs, levels)
    && Stamped(m, bs, hole)
    && Filed(bs, lists)
    && Threads(m, lists)
    && (hole.At? ==> hole.offset in bs && !bs[hole.offset].free)
  }

  /** Relinking list l leaves every other list threaded. */
  lemma OtherThreads(m: Memory, m': Memory, lists: seq<seq<nat>>, l: nat, s: seq<nat>)
    requires l < |lists| && RelinkedOnly(m, m', l, s)
    requires forall i: nat | i < |lists| && i != l :: Threaded(m, i, lists[i])
    requires forall i: nat, o: nat | i < |lists| && i != l && o in lists[i] :: o !in s
    ensures forall i: nat | i < |lists| && i != l :: Threaded(m', i, lists[i])
  {
    forall i: nat | i < |lists| && i != l
      ensures Threaded(m', i, lists[i])
    {
      forall a | OnRing(i, lists[i], a)
        ensures a in m && a in m' && m'[a] == m[a]
      {
        assert InMemory(m, i, lists[i]);
        assert !OnRing(l, s, a);
      }
      ThreadedElsewhere(m, m', i, lists[i]);
    }
  }

  /** Some free block is of the given level or larger. */
  ghost predicate Fits(bs: Blocks, level: nat) {
    exists o :: o in bs && bs[o].free && bs[o].level >= level
  }

  /** bs' is bs after the free block at `off` was cut down to the given level and allocated, all
      other blocks staying as they were. */
  ghost predicate CarvedFrom(bs: Blocks, bs': Blocks, off: nat, level: nat) {
    && off in bs && bs[off].free && bs[off].level >= level
    && off in bs' && bs'[off] == Tag(level, false)
    && Live(bs') == Live(bs)[off := level]
    && (forall o | o in bs && o != off :: o in bs' && bs'[o] == bs[o])
  }

  /** The block is the one that was filed last of those on the list of its level. */
  ghost predicate LastFiled(lists: seq<seq<nat>>, level: nat, off: nat) {
    level < |lists| && lists[level] != [] && off == lists[level][|lists[level]| - 1]
  }

  /** An allocation: the block is cut from a free block of the least level that had one. */
  ghost predicate Granted(bs: Blocks, bs': Blocks, off: nat, level: nat) {
    && CarvedFrom(bs, bs', off, level)
    && (forall o | o in bs && bs[o].free && bs[o].level >= level :: bs[o].level >= bs[off].level)
  }

  /** bs is `was` after the allocated block at off0 was taken back and joined with free siblings
      into the withheld block at `off`. */
  ghost predicate FreedFrom(was: Blocks, off0: nat, bs: Blocks, off: nat) {
    && off0 in was && !was[off0].free
    && off in bs && !bs[off].free
    && Live(bs) - {off} == Live(was) - {off0}
  }

  ghost predicate SiblingFree(bs: Blocks, off: nat)
    requires off in bs
  {
    var b := BuddyOf(off, bs[off].level);
    b in bs && bs[b] == Tag(bs[off].level, true)
  }

  /** The block has no free sibling to be joined with. */
  ghost predicate Alone(bs: Blocks, off: nat, levels: nat) {
    off in bs && (bs[off].level + 1 == levels || !SiblingFree(bs, off))
  }

  /** The block is marked free and filed last, and nothing else is changed. */
  ghost predicate FiledLast(bs: Blocks, lists: seq<seq<nat>>, bs': Blocks, lists': seq<seq<nat>>, off: nat) {
    off in bs && bs[off].level < |lists| &&
    var l := bs[off].level;
    bs' == bs[off := Tag(l, true)] && lists' == lists[l := lists[l] + [off]]
  }

  lemma CarveFurther(was: Blocks, bs: Blocks, off: nat, level: nat)
    requires CarvedFrom(was, bs, off, level) && level > 0 && off + Size(level - 1) !in bs
    ensures CarvedFrom(was, Halve(bs, off), off, level - 1)
  {
    assert Live(Halve(bs, off)) == Live(bs)[off := level - 1];
  }

  lemma SmallestLevel(bytes: nat)
    requires bytes > 16
    ensures LevelFor(bytes) >= 1
  {
    assert Size(0) == 16;
  }

  lemma NoneAvailable(m: Memory, bs: Blocks, lists: seq<seq<nat>>, minLevel: nat, available: int, levels: nat)
    requires Consistent(m, bs, lists, levels, NULL)
    requires minLevel > levels ==> available == -1
    requires minLevel <= levels ==> minLevel <= available <= levels
    requires 0 <= available < levels ==> lists[available] != []
    requires forall l: nat | minLevel <= l < levels && l < available :: lists[l] == []
    ensures levels <= 27 && |lists| == levels
    ensures 0 <= available < levels <==> Fits(bs, minLevel)
    ensures 0 <= available < levels ==>
              forall o | o in bs && bs[o].free && bs[o].level >= minLevel :: bs[o].level >= available
  {
    hide Aligned, Coalesced, Mapped, Stamped, Threads, Disjoint, Covered;
    forall o | o in bs && bs[o].free && bs[o].level >= minLevel
      ensures 0 <= available <= bs[o].level
    {
      assert o in lists[bs[o].level];
    }
    if 0 <= available < levels {
      var o := lists[available][0];
      assert o in lists[available];
      assert o in bs && bs[o] == Tag(available, true);
    }
  }

  // ----- the size test -----

  /** The low 32 bits of the request with its header. */
  function Low(nbytes: nat): nat {
    (nbytes + HEADER_SIZE) % 0x1_0000_0000
  }

  /** The size test, in plain arithmetic: NULL is for a request of nothing, for one that the int makes
      negative, and for one that together with its header is over the memory by more than a byte. */
  lemma SizeTest(nbytes: nat, maxMemSize: nat)
    ensures Rejected(nbytes, maxMemSize) <==> nbytes == 0 || Low(nbytes) >= 0x8000_0000 || Low(nbytes) > maxMemSize + 1
    ensures 0 < nbytes && nbytes + HEADER_SIZE < 0x8000_0000 ==>
              (Rejected(nbytes, maxMemSize) <==> nbytes + HEADER_SIZE > maxMemSize + 1)
    ensures Low(nbytes) < 0x8000_0000 ==> RealBytes(nbytes) == Low(nbytes)
  {}

  /** Some free block has room for the request, as the int has it. */
  ghost predicate Room(bs: Blocks, nbytes: nat) {
    nbytes > 0 && Low(nbytes) > 0 && exists o :: o in bs && bs[o].free && Size(bs[o].level) >= Low(nbytes)
  }

  /** A request for which a free block is large enough passes the test, and finds its level filled. */
  lemma LargeEnough(m: Memory, bs: Blocks, lists: seq<seq<nat>>, levels: nat, nbytes: nat, maxMemSize: nat)
    requires Consistent(m, bs, lists, levels, NULL) && Total(levels) <= maxMemSize
    ensures Room(bs, nbytes) ==>
              !Rejected(nbytes, maxMemSize) && RealBytes(nbytes) == Low(nbytes) && Fits(bs, LevelFor(RealBytes(nbytes)))
  {
    if Room(bs, nbytes) {
      var o :| o in bs && bs[o].free && Size(bs[o].level) >= Low(nbytes);
      BlocksFit(bs, levels, o);
      hide Consistent, LevelFor, Low, Rejected, RealBytes, Size;
      SizeTest(nbytes, maxMemSize);
      LevelForHolds(Low(nbytes));
    }
  }

  lemma BlocksFit(bs: Blocks, levels: nat, o: nat)
    requires 0 < levels <= 27 && Tiling(bs, levels) && o in bs
    ensures bs[o].level < levels && Size(bs[o].level) <= Total(levels) < 0x8000_0000
  {
    assert Placed(o, bs[o].level, levels);
    var l := bs[o].level;
    hide Tiling, Placed;
    Pow2Monotone(MIN_ALLOC_LOG_2 + l, MIN_ALLOC_LOG_2 + levels - 1);
    Pow2Monotone(MIN_ALLOC_LOG_2 + levels - 1, 30);
    Pow2Values();
  }

  /** The level of the block granted is the least one whose blocks hold the request. */
  lemma GrantedLevel(bs: Blocks, bs': Blocks, off: nat, nbytes: nat, maxMemSize: nat)
    requires !Rejected(nbytes, maxMemSize) && Granted(bs, bs', off, LevelFor(RealBytes(nbytes)))
    ensures off in bs' && LeastFor(bs'[off].level, nbytes)
  {
    SizeTest(nbytes, maxMemSize);
    LevelForHolds(Low(nbytes));
    hide LevelFor, Low, RealBytes;
  }

  lemma RoomMade(was: Blocks, lists: seq<seq<nat>>, bs: Blocks, lists': seq<seq<nat>>, off: nat, nbytes: nat)
    requires FiledLast(was, lists, bs, lists', off) && LeastFor(was[off].level, nbytes) && nbytes > 0 && Low(nbytes) > 0
    ensures Room(bs, nbytes)
  {
    assert off in bs;
    hide Size, Low;
  }

  /** What was filed last is taken first. */
  lemma Reused(was: Blocks, lists: seq<seq<nat>>, bs: Blocks, lists': seq<seq<nat>>, bs': Blocks, levels: nat,
               off: nat, off': nat, nbytes: nat)
    requires FiledLast(was, lists, bs, lists', off) && LeastFor(was[off].level, nbytes) && !was[off].free
    requires Low(nbytes) < 0x8000_0000
    requires Granted(bs, bs', off', LevelFor(RealBytes(nbytes))) && LastFiled(lists', bs[off'].level, off')
    requires 0 < levels <= 27 && Tiling(was, levels) && Coalesced(was, levels)
    requires Tiling(bs', levels) && Coalesced(bs', levels)
    ensures off' == off && bs' == was
  {
    hide Tiling, Coalesced, Low, Size, LevelFor;
    SizeTest(nbytes, 0);
    LeastIsFor(was[off].level, nbytes);
    assert off in bs && bs[off].free && bs[off].level == was[off].level;
    assert bs[off'].level == was[off].level && off' == off;
    assert Live(bs) == Live(was) - {off};
    assert Live(bs') == Live(was);
    LiveDeterminesBlocks(was, bs', levels);
  }

  lemma LeastIsFor(level: nat, nbytes: nat)
    requires LeastFor(level, nbytes) && Low(nbytes) < 0x8000_0000
    ensures LevelFor(RealBytes(nbytes)) == level
  {
    LevelForUnique(Low(nbytes), level);
  }

  predicate LeastFor(level: nat, nbytes: nat) {
    Low(nbytes) <= Size(level) && (level > 0 ==> Size(level - 1) < Low(nbytes))
  }

  // ----- the allocator -----

  class Allocator {
    const heap: Headers
    const levels: nat
    const maxMemSize: nat
    ghost var blocks: Blocks
    ghost var lists: seq<seq<nat>>

    ghost predicate ValidBut(hole: Ptr)
      reads this, heap
    {
      Consistent(heap.at, blocks, lists, levels, hole)
    }

    ghost predicate Valid()
      reads this, heap
    {
      ValidBut(NULL)
    }

    /** memInit: one free block of the top level, over memory holding anything at all. */
    constructor (memSize: nat, contents: Memory)
      requires 32 <= memSize < 0x8000_0000
      requires Mapped(contents, MAX_LEVELS)
      ensures Valid()
      ensures Total(levels) <= memSize < 2 * Total(levels) && maxMemSize == memSize
      ensures blocks == map[0 := Tag(levels - 1, true)]
      ensures fresh(heap)
    {
      var log := Log2(memSize);
      LevelCount(memSize, log);
      var n := log - MIN_ALLOC_LOG_2 + 1;
      if n > MAX_LEVELS {
        n := MAX_LEVELS;
      }
      heap := new Headers(contents);
      levels := n;
      maxMemSize := memSize;
      lists := [];
      blocks := map[];
      new;
      InitHeads();
      Pow2Monotone(MIN_ALLOC_LOG_2 + levels - 1, MIN_ALLOC_LOG_2 + MAX_LEVELS - 1);
      assert Aligned(0, 1);
      AddFirstBlock();
    }

    /** The loop of memInit: every list head becomes an empty ring. */
    method InitHeads()
      requires lists == [] && forall i: nat | i < levels :: Head(i) in heap.at
      modifies heap, `lists
      ensures heap.at.Keys == old(heap.at.Keys)
      ensures |lists| == levels && Threads(heap.at, lists)
      ensures forall j: nat | j < levels :: lists[j] == []
    {
      var i := 0;
      while i < levels
        invariant 0 <= i <= levels && |lists| == i
        invariant forall j: nat | j < i :: lists[j] == []
        invariant Threads(heap.at, lists)
        invariant heap.at.Keys == old(heap.at.Keys)
      {
        ghost var m := heap.at;
        heap.ListInit(i, Head(i));
        OtherThreads(m, heap.at, lists + [[]], i, []);
        m := heap.at;
        lists := lists + [[]];
        heap.SetFree(Head(i), false);
        heap.SetLevel(Head(i), i);
        ThreadedEverywhere(m, heap.at, lists);
        i := i + 1;
      }
    }

    /** The last step of memInit: the whole arena goes on the top list. */
    method AddFirstBlock()
      requires 2 <= levels <= 27 && |lists| == levels && Mapped(heap.at, levels)
      requires Threads(heap.at, lists) && blocks == map[] && Block(0) in heap.at
      requires Filed(blocks, lists)
      modifies this, heap
      ensures Valid() && blocks == map[0 := Tag(levels - 1, true)]
    {
      WholeHeap(levels);
      AddNodeToLevel(0, levels - 1, NULL);
    }

    /** addNodeToLevel, for the block at an offset. */
    method AddNodeToLevel(off: nat, level: nat, ghost hole: Ptr)
      requires 2 <= levels <= 27 && |lists| == levels && Mapped(heap.at, levels)
      requires Threads(heap.at, lists) && Filed(blocks, lists) && Stamped(heap.at, blocks, hole)
      requires 1 <= level < levels && off !in blocks && Block(off) in heap.at
      requires hole.At? ==> hole.offset in blocks && !blocks[hole.offset].free
      requires Tiling(blocks[off := Tag(level, true)], levels)
      requires Coalesced(blocks[off := Tag(level, true)], levels)
      modifies this, heap
      ensures blocks == old(blocks)[off := Tag(level, true)]
      ensures ValidBut(hole)
    {
      heap.SetFree(Block(off), true);
      heap.SetLevel(Block(off), level);
      ThreadedEverywhere(old(heap.at), heap.at, lists);
      PushFiled(blocks, lists, level, off);
      ghost var m := heap.at;
      heap.ListPush(level, lists[level], Head(level), Block(off));
      PushThreads(m, heap.at, blocks, lists, level, off);
      PushStamped(m, heap.at, blocks, lists[level], hole, off, level);
      lists := lists[level := lists[level] + [off]];
      blocks := blocks[off := Tag(level, true)];
    }

    /** getFirstAvailableLevel: the least level from minLevel up whose list is not empty. When there
        is none the loop stops at `levels`, which the test that follows lets through. */
    method GetFirstAvailableLevel(minLevel: nat) returns (r: int)
      requires Valid()
      ensures minLevel > levels ==> r == -1
      ensures minLevel <= levels ==> minLevel <= r <= levels
      ensures 0 <= r < levels ==> lists[r] != []
      ensures forall l: nat | minLevel <= l < levels && l < r :: lists[l] == []
    {
      var actualLevel := minLevel;
      while actualLevel < levels
        invariant minLevel <= actualLevel && (minLevel <= levels ==> actualLevel <= levels)
        invariant minLevel > levels ==> actualLevel == minLevel
        invariant forall l: nat | minLevel <= l < levels && l < actualLevel :: lists[l] == []
      {
        var empty := heap.IsEmpty(actualLevel, lists[actualLevel], Head(actualLevel));
        if !empty {
          break;
        }
        actualLevel := actualLevel + 1;
      }
      if actualLevel > levels {
        return -1;
      }
      return actualLevel;
    }

    /** Takes the last block off a non-empty list; the block is now in the allocator's hands. */
    method Withdraw(level: nat) returns (off: nat)
      requires Valid() && level < levels && lists[level] != []
      modifies this, heap
      ensures off in old(blocks) && old(blocks)[off] == Tag(level, true)
      ensures CarvedFrom(old(blocks), blocks, off, level) && LastFiled(old(lists), level, off)
      ensures ValidBut(At(off))
    {
      hide Consistent, CarvedFrom;
      ghost var m := heap.at;
      ListThreaded(m, blocks, lists, levels, level);
      ghost var s := lists[level];
      var back := heap.ListPop(level, s, Head(level));
      off := back.off;
      Withdrawn(m, heap.at, blocks, lists, levels, level);
      lists := lists[level := s[..|s| - 1]];
      blocks := blocks[off := Tag(level, false)];
    }

    /** One pass of the fragmentation loop of mallocCust: lower the block's level, and file the
        upper half as a free block. */
    method Fragment(off: nat, ghost actualLevel: nat, ghost was: Blocks)
      requires ValidBut(At(off)) && actualLevel > 1
      requires CarvedFrom(was, blocks, off, actualLevel)
      modifies this, heap
      ensures CarvedFrom(was, blocks, off, actualLevel - 1)
      ensures ValidBut(At(off))
    {
      UpperHalf(blocks, levels, off);
      CarveFurther(was, blocks, off, actualLevel);
      ghost var m := heap.at;
      heap.SetLevel(Block(off), heap.at[Block(off)].level - 1);
      var level := heap.at[Block(off)].level;
      var buddy := BuddyOf(off, level);
      LoweredLevel(m, heap.at, blocks, lists, levels, off);
      blocks := blocks[off := Tag(level, false)];
      AddNodeToLevel(buddy, level, At(off));
    }

    /** The fragmentation loop of mallocCust: take a block of an available level and halve it until
        it is of the wanted level. */
    method Carve(available: nat, minLevel: nat) returns (off: nat)
      requires Valid() && 1 <= minLevel <= available < levels && lists[available] != []
      modifies this, heap
      ensures Valid()
      ensures CarvedFrom(old(blocks), blocks, off, minLevel) && old(blocks)[off].level == available
      ensures LastFiled(old(lists), available, off)
    {
      hide Consistent, CarvedFrom, LastFiled;
      var actualLevel := available;
      ghost var was := blocks;
      off := Withdraw(actualLevel);
      while minLevel < actualLevel
        invariant minLevel <= actualLevel < levels
        invariant ValidBut(At(off)) && CarvedFrom(was, blocks, off, actualLevel)
      {
        Fragment(off, actualLevel, was);
        actualLevel := actualLevel - 1;
      }
      Settle(off);
    }

    /** The block leaves the allocator's hands as an allocated one. */
    method Settle(off: nat)
      requires ValidBut(At(off))
      modifies heap
      ensures Valid()
    {
      ghost var m := heap.at;
      heap.SetFree(Block(off), false);
      ThreadedEverywhere(m, heap.at, lists);
    }

    /** mallocCust, on every request the C accepts without corrupting a header: a request that
        wraps to a 1..16 byte block would get a block smaller than the header it holds. */
    method Malloc(nbytes: nat) returns (out: Outcome)
      requires Valid() && nbytes < Pow2(64)
      requires !(1 <= RealBytes(nbytes) <= 16)
      modifies this, heap
      ensures Valid()
      ensures out == Returned(NULL) <==> Rejected(nbytes, maxMemSize)
      ensures out.WildPop? <==> !Rejected(nbytes, maxMemSize) &&
                                (RealBytes(nbytes) == 0 || !Fits(old(blocks), LevelFor(RealBytes(nbytes))))
      ensures !(out.Returned? && out.ptr.At?) ==> blocks == old(blocks)
      ensures out.Returned? && out.ptr.At? ==>
                out.ptr.offset >= HEADER_SIZE &&
                Granted(old(blocks), blocks, out.ptr.offset - HEADER_SIZE, LevelFor(RealBytes(nbytes))) &&
                LastFiled(old(lists), old(blocks)[out.ptr.offset - HEADER_SIZE].level, out.ptr.offset - HEADER_SIZE)
      ensures out == Returned(NULL) <==> nbytes == 0 || Low(nbytes) >= 0x8000_0000 || Low(nbytes) > maxMemSize + 1
      ensures 0 < nbytes && nbytes + HEADER_SIZE < 0x8000_0000 ==>
                (out == Returned(NULL) <==> nbytes + HEADER_SIZE > maxMemSize + 1)
      ensures Total(levels) <= maxMemSize && Room(old(blocks), nbytes) ==> out.Returned? && out.ptr.At?
      ensures out.Returned? && out.ptr.At? ==> LeastFor(blocks[out.ptr.offset - HEADER_SIZE].level, nbytes)
    {
      hide Consistent, Granted, LevelFor, Fits, LastFiled, Low, Room, LeastFor, Rejected, RealBytes, Total, Pow2;
      Tests(nbytes);
      ghost var was := blocks;
      out := Grant(nbytes);
      if out.Returned? && out.ptr.At? {
        GrantedLevel(was, blocks, out.ptr.offset - HEADER_SIZE, nbytes, maxMemSize);
      }
    }

    lemma Tests(nbytes: nat)
      requires Valid()
      ensures 2 <= levels
      ensures Rejected(nbytes, maxMemSize) <==>
              nbytes == 0 || Low(nbytes) >= 0x8000_0000 || Low(nbytes) > maxMemSize + 1
      ensures 0 < nbytes && nbytes + HEADER_SIZE < 0x8000_0000 ==>
                (Rejected(nbytes, maxMemSize) <==> nbytes + HEADER_SIZE > maxMemSize + 1)
      ensures Total(levels) <= maxMemSize && Room(blocks, nbytes) ==>
                !Rejected(nbytes, maxMemSize) && RealBytes(nbytes) != 0 && Fits(blocks, LevelFor(RealBytes(nbytes)))
    {
      SizeTest(nbytes, maxMemSize);
      if Total(levels) <= maxMemSize {
        LargeEnough(heap.at, blocks, lists, levels, nbytes, maxMemSize);
      }
      hide Consistent, LevelFor, Fits, RealBytes, Low, Rejected;
    }

    /** mallocCust, but for what its answers mean in bytes. */
    method Grant(nbytes: nat) returns (out: Outcome)
      requires Valid() && nbytes < Pow2(64)
      requires !(1 <= RealBytes(nbytes) <= 16)
      modifies this, heap
      ensures Valid()
      ensures out == Returned(NULL) <==> Rejected(nbytes, maxMemSize)
      ensures out.WildPop? <==> !Rejected(nbytes, maxMemSize) &&
                                (RealBytes(nbytes) == 0 || !Fits(old(blocks), LevelFor(RealBytes(nbytes))))
      ensures !(out.Returned? && out.ptr.At?) ==> blocks == old(blocks)
      ensures out.Returned? && out.ptr.At? ==>
                out.ptr.offset >= HEADER_SIZE &&
                Granted(old(blocks), blocks, out.ptr.offset - HEADER_SIZE, LevelFor(RealBytes(nbytes))) &&
                LastFiled(old(lists), old(blocks)[out.ptr.offset - HEADER_SIZE].level, out.ptr.offset - HEADER_SIZE)
    {
      hide Consistent, CarvedFrom, LevelFor, Fits, LastFiled;
      var realBytesNeeded := RealBytes(nbytes);
      if nbytes == 0 || realBytesNeeded < 0 || realBytesNeeded > maxMemSize + 1 {
        return Returned(NULL);
      }
      out := Allocate(realBytesNeeded);
    }

    /** mallocCust, once the request has passed its size test. */
    method Allocate(realBytesNeeded: nat) returns (out: Outcome)
      requires Valid() && realBytesNeeded < 0x8000_0000 && !(1 <= realBytesNeeded <= 16)
      modifies this, heap
      ensures Valid()
      ensures out != Returned(NULL)
      ensures out.WildPop? <==> realBytesNeeded == 0 || !Fits(old(blocks), LevelFor(realBytesNeeded))
      ensures out.WildPop? ==> blocks == old(blocks)
      ensures out.Returned? ==>
                out.ptr.offset >= HEADER_SIZE &&
                Granted(old(blocks), blocks, out.ptr.offset - HEADER_SIZE, LevelFor(realBytesNeeded)) &&
                LastFiled(old(lists), old(blocks)[out.ptr.offset - HEADER_SIZE].level, out.ptr.offset - HEADER_SIZE)
    {
      hide Consistent, CarvedFrom, LevelFor, Fits, LastFiled;
      var minLevel := FindIdealLevel(realBytesNeeded);
      var available := GetFirstAvailableLevel(minLevel);
      NoneAvailable(heap.at, blocks, lists, minLevel, available, levels);
      var actualLevel := if available == -1 then 255 else available;
      if actualLevel >= levels {
        return WildPop(actualLevel);
      }
      SmallestLevel(realBytesNeeded);
      var off := Carve(actualLevel, minLevel);
      return Returned(At(off + HEADER_SIZE));
    }

    /** One pass of the coalescing loop of freeCust: unlist the sibling and carry on with the
        parent, which starts at the lower of the two. */
    method Coalesce(off: nat, ghost off0: nat, ghost was: Blocks) returns (parent: nat)
      requires ValidBut(At(off)) && heap.at[Block(off)].free
      requires FreedFrom(was, off0, blocks, off)
      requires blocks[off].level + 1 < levels && SiblingFree(blocks, off)
      modifies this, heap
      ensures ValidBut(At(parent)) && heap.at[Block(parent)].free
      ensures FreedFrom(was, off0, blocks, parent)
      ensures blocks[parent].level == old(blocks)[off].level + 1
    {
      hide Consistent, FreedFrom, BuddyOf, ParentOf, Join, Threaded, RelinkedOnly, SiblingFree, Size, Pow2;
      HoleIsBlock(heap.at, blocks, lists, levels, off);
      ghost var l, m := blocks[off].level, heap.at;
      ghost var n := SiblingListed(heap.at, blocks, lists, levels, off);
      ghost var m1;
      parent, m1 := Merge(off, l, lists[l], n);
      Joined(m, m1, heap.at, blocks, lists, levels, off, n);
      JoinLive(was, off0, blocks, off, levels);
      lists := lists[l := lists[l][..n] + lists[l][n + 1..]];
      blocks := Join(blocks, off);
    }

    /** What that does to the headers. */
    method Merge(off: nat, ghost l: nat, ghost s: seq<nat>, ghost n: nat) returns (parent: nat, ghost m1: Memory)
      requires Block(off) in heap.at && heap.at[Block(off)].level == l && Size(l) < Pow2(64)
      requires Threaded(heap.at, l, s) && n < |s| && s[n] == BuddyOf(off, l)
      requires Block(s[n]) in heap.at && heap.at[Block(s[n])].level == l && ParentOf(off, l) in {off, s[n]}
      modifies heap
      ensures parent == ParentOf(off, l) && Block(parent) in m1
      ensures RelinkedOnly(old(heap.at), m1, l, s) && Threaded(m1, l, s[..n] + s[n + 1..])
      ensures heap.at == m1[Block(parent) := m1[Block(parent)].(level := l + 1)]
    {
      hide BuddyOf, ParentOf, Threaded, Size, Pow2;
      var level: nat := heap.at[Block(off)].level;
      var buddy: nat := BuddyOf(off, level);
      heap.ListRemove(l, s, n, Block(buddy));
      parent := ParentOf(off, level);
      m1 := heap.at;
      heap.SetLevel(Block(parent), heap.at[Block(parent)].level + 1);
    }

    /** The start of freeCust: the block is marked free, and is back in the allocator's hands. */
    method TakeBack(off: nat)
      requires Valid() && off in Live(blocks)
      modifies heap
      ensures ValidBut(At(off)) && FreedFrom(blocks, off, blocks, off)
      ensures Block(off) in heap.at && heap.at[Block(off)].free
    {
      ghost var m := heap.at;
      heap.SetFree(Block(off), true);
      ThreadedEverywhere(m, heap.at, lists);
    }

    /** The end of freeCust: the block, joined as far as it goes, is pushed on its list. */
    method Release(off: nat, ghost off0: nat, ghost was: Blocks)
      requires ValidBut(At(off)) && Block(off) in heap.at && heap.at[Block(off)].free
      requires FreedFrom(was, off0, blocks, off)
      requires SiblingRead(heap.at, blocks, levels, off)
      requires blocks[off].level + 1 == levels || !SiblingFree(blocks, off)
      modifies this, heap
      ensures Valid()
      ensures Live(blocks) == Live(was) - {off0}
      ensures off in old(blocks) && old(blocks)[off].level < |old(lists)|
      ensures var l := old(blocks)[off].level;
              blocks == old(blocks)[off := Tag(l, true)] && lists == old(lists)[l := old(lists)[l] + [off]]
    {
      hide Tiling, Coalesced, Live, BuddyOf, Mapped;
      ghost var m := heap.at;
      var level := heap.at[Block(off)].level;
      ReleaseKeepsCoalesced(blocks, levels, off);
      ReleaseLive(was, off0, blocks, off);
      PushFiled(blocks, lists, level, off);
      heap.ListPush(level, lists[level], Head(level), Block(off));
      PushThreads(m, heap.at, blocks, lists, level, off);
      PushStamped(m, heap.at, blocks, lists[level], NULL, off, level);
      MappedStays(m, heap.at, levels);
      lists := lists[level := lists[level] + [off]];
      blocks := blocks[off := Tag(level, true)];
    }

    /** freeCust, on NULL or the pointer of an allocated block. */
    method Free(freePointer: Ptr)
      requires Valid()
      requires freePointer.At? ==> freePointer.offset >= HEADER_SIZE &&
                                   freePointer.offset - HEADER_SIZE in Live(blocks)
      modifies this, heap
      ensures Valid()
      ensures freePointer == NULL ==> blocks == old(blocks)
      ensures freePointer.At? ==> Live(blocks) == Live(old(blocks)) - {freePointer.offset - HEADER_SIZE}
      ensures freePointer.At? && Alone(old(blocks), freePointer.offset - HEADER_SIZE, levels) ==>
                FiledLast(old(blocks), old(lists), blocks, lists, freePointer.offset - HEADER_SIZE)
    {
      if freePointer == NULL {
        return;
      }
      hide Consistent, FreedFrom, ValidBut, SiblingFree, Live, BuddyOf;
      var freeNode: nat := freePointer.offset - HEADER_SIZE;
      ghost var off0 := freeNode;
      ghost var was := blocks;
      TakeBack(freeNode);
      SiblingHeader(heap.at, blocks, lists, levels, freeNode);
      var buddy: nat := BuddyOf(freeNode, heap.at[Block(freeNode)].level);
      while heap.at[Block(freeNode)].level != levels - 1 &&
            heap.at[Block(buddy)].level == heap.at[Block(freeNode)].level && heap.at[Block(buddy)].free
        invariant ValidBut(At(freeNode)) && Block(freeNode) in heap.at && heap.at[Block(freeNode)].free
        invariant FreedFrom(was, off0, blocks, freeNode)
        invariant Alone(was, off0, levels) ==> freeNode == off0 && blocks == was && lists == old(lists)
        invariant SiblingRead(heap.at, blocks, levels, freeNode) && buddy == BuddyOf(freeNode, blocks[freeNode].level)
        decreases levels - heap.at[Block(freeNode)].level
      {
        freeNode := Coalesce(freeNode, off0, was);
        SiblingHeader(heap.at, blocks, lists, levels, freeNode);
        buddy := BuddyOf(freeNode, heap.at[Block(freeNode)].level);
      }
      Release(freeNode, off0, was);
    }

    /** The owner of an allocated block writes inside it, past the header: whatever headers earlier
        splits and joins left there are lost, and the allocator does not notice. */
    method OwnerWrites(off: nat, at: nat, junk: Node)
      requires Valid() && off in Live(blocks)
      requires off + HEADER_SIZE <= at < off + Size(blocks[off].level)
      modifies heap
      ensures Valid()
    {
      ghost var m := heap.at;
      NotAStart(blocks, off, at);
      heap.at := heap.at[Block(at) := junk];
      PayloadThreads(m, heap.at, blocks, lists, at);
    }

    /** A block freed where it cannot be joined is the one that the next request of its level gets. */
    method FreeThenMalloc(p: Ptr, nbytes: nat) returns (out: Outcome)
      requires Valid() && p.At? && p.offset >= HEADER_SIZE && p.offset - HEADER_SIZE in Live(blocks)
      requires Alone(blocks, p.offset - HEADER_SIZE, levels) && Total(levels) <= maxMemSize
      requires 0 < nbytes < Pow2(64) && Low(nbytes) > 16 && LeastFor(blocks[p.offset - HEADER_SIZE].level, nbytes)
      modifies this, heap
      ensures Valid() && out == Returned(p) && blocks == old(blocks)
    {
      hide Consistent, Alone, FiledLast, Granted, LevelFor, Fits, LastFiled, Low, Room, LeastFor, Rejected, RealBytes;
      hide Tiling, Coalesced, Live, Size;
      ghost var off, was, filed := p.offset - HEADER_SIZE, blocks, lists;
      Consistently(off, nbytes);
      Free(p);
      RoomMade(was, filed, blocks, lists, off, nbytes);
      ghost var freed, lists1 := blocks, lists;
      out := Malloc(nbytes);
      Consistently(off, nbytes);
      Reused(was, filed, freed, lists1, blocks, levels, off, out.ptr.offset - HEADER_SIZE, nbytes);
    }

    lemma Consistently(off: nat, nbytes: nat)
      requires Valid()
      ensures 2 <= levels <= 27 && Tiling(blocks, levels) && Coalesced(blocks, levels)
      ensures Low(nbytes) > 16 ==> !(1 <= RealBytes(nbytes) <= 16)
      ensures off in Live(blocks) ==> off in blocks && !blocks[off].free && blocks[off].level < levels
    {
      SizeTest(nbytes, maxMemSize);
      if off in blocks {
        BlocksFit(blocks, levels, off);
      }
    }

    /** Freeing everything, in any order, leaves the heap as memInit made it. */
    method FreeAll(pointers: seq<nat>)
      requires Valid()
      requires NoDuplicates(pointers)
      requires forall off: nat :: off in Live(blocks) <==> off in pointers
      modifies this, heap
      ensures Valid() && blocks == map[0 := Tag(levels - 1, true)]
    {
      hide Live;
      var i := 0;
      while i < |pointers|
        invariant i <= |pointers| && Valid()
        invariant forall off: nat :: off in Live(blocks) <==> off in pointers[i..]
      {
        ghost var before := Live(blocks);
        assert pointers[i] in pointers[i..];
        Free(At(pointers[i] + HEADER_SIZE));
        DropFirst(pointers, i);
        i := i + 1;
      }
      assert Live(blocks) == map[];
      AllFreeIsOneBlock(blocks, levels);
    }
  }

  lemma DropFirst(s: seq<nat>, i: nat)
    requires NoDuplicates(s) && i < |s|
    ensures forall o: nat :: o in s[i + 1..] <==> o in s[i..] && o != s[i]
  {
    assert s[i..] == [s[i]] + s[i + 1..];
    assert forall k | i < k < |s| :: s[i] != s[k];
  }

  lemma NotAStart(bs: Blocks, off: nat, x: nat)
    requires Disjoint(bs) && off in bs && off < x < off + Size(bs[off].level)
    ensures x !in bs
  {}

  /** Memory that starts no block is on no list. */
  lemma PayloadThreads(m: Memory, m': Memory, bs: Blocks, lists: seq<seq<nat>>, x: nat)
    requires Threads(m, lists) && Filed(bs, lists) && x !in bs
    requires m'.Keys >= m.Keys && forall a | a in m && a != Block(x) :: m'[a] == m[a]
    ensures Threads(m', lists)
  {
    forall i: nat | i < |lists|
      ensures Threaded(m', i, lists[i])
    {
      assert InMemory(m, i, lists[i]);
      assert x !in lists[i];
      ThreadedElsewhere(m, m', i, lists[i]);
    }
  }

  lemma ListThreaded(m: Memory, bs: Blocks, lists: seq<seq<nat>>, levels: nat, level: nat)
    requires Consistent(m, bs, lists, levels, NULL) && level < levels
    ensures |lists| == levels && Threaded(m, level, lists[level])
  {}

  /** Popping the last block of a list withdraws it from the free blocks. */
  lemma Withdrawn(m: Memory, m': Memory, bs: Blocks, lists: seq<seq<nat>>, levels: nat, level: nat)
    requires Consistent(m, bs, lists, levels, NULL) && level < |lists| && lists[level] != []
    requires var s := lists[level]; RelinkedOnly(m, m', level, s) && Threaded(m', level, s[..|s| - 1])
    ensures var s := lists[level]; var off := s[|s| - 1];
            off in bs && bs[off] == Tag(level, true) &&
            CarvedFrom(bs, bs[off := Tag(level, false)], off, level) &&
            Consistent(m', bs[off := Tag(level, false)], lists[level := s[..|s| - 1]], levels, At(off))
  {
    hide Tiling, Coalesced, Threaded, Mapped;
    var s := lists[level];
    var off := s[|s| - 1];
    assert off in s;
    assert bs[off] == Tag(level, true);
    PopThreads(m, m', bs, lists, level, s[..|s| - 1]);
    assert s[..|s| - 1] + s[|s|..] == s[..|s| - 1];
    PopFiled(m, bs, lists, level, |s| - 1);
    RetagKeepsTiling(bs, levels, off, false);
    WithholdKeepsCoalesced(bs, levels, off);
    MappedStays(m, m', levels);
    assert Live(bs[off := Tag(level, false)]) == Live(bs)[off := level];
  }

  lemma MappedStays(m: Memory, m': Memory, levels: nat)
    requires Mapped(m, levels) && m'.Keys == m.Keys
    ensures Mapped(m', levels)
  {}

  /** Where the free sibling of a withheld block is filed, and what both headers say. */
  lemma SiblingListed(m: Memory, bs: Blocks, lists: seq<seq<nat>>, levels: nat, off: nat) returns (n: nat)
    requires Consistent(m, bs, lists, levels, At(off)) && bs[off].level + 1 < levels
    requires SiblingFree(bs, off)
    ensures var l := bs[off].level; var b := BuddyOf(off, l);
            Block(off) in m && Block(b) in m && m[Block(off)].level == m[Block(b)].level == l &&
            m[Block(b)].free &&
            l < |lists| == levels && n < |lists[l]| && lists[l][n] == b && Threaded(m, l, lists[l]) &&
            Size(l) < Pow2(64) && ParentOf(off, l) in {off, b}
  {
    hide Tiling, Coalesced, Mapped, ParentOf, BuddyOf;
    var l := bs[off].level;
    var b := BuddyOf(off, l);
    BlockLevels(bs, levels, off);
    SiblingInside(bs, levels, off);
    BuddyAndParent(off, l);
    assert b in lists[l];
    n :| 0 <= n < |lists[l]| && lists[l][n] == b;
  }

  /** What freeCust reads at a withheld block and at its sibling's address: unless the block is the
      whole heap, the sibling address holds the header of a current block, and the test on that
      header says exactly whether the sibling is free and whole. */
  ghost predicate SiblingRead(m: Memory, bs: Blocks, levels: nat, off: nat) {
    && off in bs && Block(off) in m && m[Block(off)].level == bs[off].level < levels
    && var l := bs[off].level; var b := BuddyOf(off, l);
       l + 1 < levels ==> b in bs && Block(b) in m &&
                          ((m[Block(b)].level == l && m[Block(b)].free) <==> SiblingFree(bs, off))
  }

  lemma SiblingHeader(m: Memory, bs: Blocks, lists: seq<seq<nat>>, levels: nat, off: nat)
    requires Consistent(m, bs, lists, levels, At(off))
    ensures SiblingRead(m, bs, levels, off)
  {
    hide Coalesced, Mapped, ParentOf, BuddyOf, Filed, Threads, Disjoint, Covered;
    var l := bs[off].level;
    BlockLevels(bs, levels, off);
    if l + 1 < levels {
      SiblingIsBlock(bs, levels, off);
      OnlySibling(off, BuddyOf(off, l), l, levels);
    }
  }

  lemma ReleaseLive(was: Blocks, off0: nat, bs: Blocks, off: nat)
    requires FreedFrom(was, off0, bs, off)
    ensures Live(bs[off := bs[off].(free := true)]) == Live(was) - {off0}
  {
    assert Live(bs[off := bs[off].(free := true)]) == Live(bs) - {off};
  }

  lemma BlockLevels(bs: Blocks, levels: nat, off: nat)
    requires Tiling(bs, levels) && off in bs && levels <= 27
    ensures Placed(off, bs[off].level, levels) && bs[off].level < levels
    ensures off < Pow2(63) && Pow2(63) < Pow2(64)
  {
    OffsetsFit(levels);
  }

  /** Unlisting the sibling and raising the level of the parent joins the two. */
  lemma Joined(m: Memory, m1: Memory, m2: Memory, bs: Blocks, lists: seq<seq<nat>>, levels: nat, off: nat, n: nat)
    requires Consistent(m, bs, lists, levels, At(off)) && bs[off].level + 1 < levels
    requires SiblingFree(bs, off) && m[Block(off)].free
    requires var l := bs[off].level;
             l < |lists| && n < |lists[l]| && lists[l][n] == BuddyOf(off, l) &&
             RelinkedOnly(m, m1, l, lists[l]) && Threaded(m1, l, lists[l][..n] + lists[l][n + 1..]) &&
             Size(l) < Pow2(64) && Block(ParentOf(off, l)) in m1 && ParentOf(off, l) in {off, BuddyOf(off, l)} &&
             m2 == m1[Block(ParentOf(off, l)) := m1[Block(ParentOf(off, l))].(level := l + 1)]
    ensures var l := bs[off].level; var s := lists[l];
            m2[Block(ParentOf(off, l))].free &&
            Join(bs, off)[ParentOf(off, l)].level == l + 1 &&
            Consistent(m2, Join(bs, off), lists[l := s[..n] + s[n + 1..]], levels, At(ParentOf(off, l)))
  {
    hide Tiling, Coalesced, Mapped, ParentOf, BuddyOf, Threaded, RelinkedOnly, Filed, Stamped;
    var l := bs[off].level;
    var s := lists[l];
    var t := s[..n] + s[n + 1..];
    var b := BuddyOf(off, l);
    JoinKeepsTiling(bs, levels, off);
    JoinKeepsCoalesced(bs, levels, off);
    PopThreads(m, m1, bs, lists, l, t);
    PopFiled(m, bs, lists, l, n);
    JoinFiled(bs, lists[l := t], levels, off);
    JoinStamped(m, m1, m2, bs, l, s, levels, off);
    RaisedThreads(m1, m2, lists[l := t]);
    RelinkedMapped(m, m1, m2, levels, l, s);
  }

  lemma RaisedThreads(m1: Memory, m2: Memory, lists: seq<seq<nat>>)
    requires Threads(m1, lists)
    requires forall a | a in m1 :: a in m2 && m2[a].prev == m1[a].prev && m2[a].next == m1[a].next
    ensures Threads(m2, lists)
  {
    ThreadedEverywhere(m1, m2, lists);
  }

  lemma RelinkedMapped(m: Memory, m1: Memory, m2: Memory, levels: nat, l: nat, s: seq<nat>)
    requires Mapped(m, levels) && RelinkedOnly(m, m1, l, s) && m2.Keys == m1.Keys
    ensures Mapped(m2, levels)
  {}

  lemma JoinFiled(bs: Blocks, lists: seq<seq<nat>>, levels: nat, off: nat)
    requires off in bs && !bs[off].free && BuddyOf(off, bs[off].level) in bs
    requires Size(bs[off].level) < Pow2(64)
    requires ParentOf(off, bs[off].level) in {off, BuddyOf(off, bs[off].level)}
    requires Filed(bs[BuddyOf(off, bs[off].level) := Tag(bs[off].level, false)], lists)
    ensures Filed(Join(bs, off), lists)
  {
    hide ParentOf, BuddyOf;
    var l := bs[off].level;
    var b := BuddyOf(off, l);
    var mid := bs[b := Tag(l, false)];
    var bs' := Join(bs, off);
    forall i: nat, o: nat | i < |lists|
      ensures o in lists[i] <==> (o in bs' && bs'[o] == Tag(i, true))
    {
      assert o in lists[i] <==> (o in mid && mid[o] == Tag(i, true));
    }
  }

  lemma JoinStamped(m: Memory, m1: Memory, m2: Memory, bs: Blocks, l: nat, s: seq<nat>, levels: nat, off: nat)
    requires Stamped(m, bs, At(off)) && off in bs && bs[off].level == l && SiblingFree(bs, off)
    requires RelinkedOnly(m, m1, l, s) && m[Block(off)].free
    requires Size(l) < Pow2(64) && ParentOf(off, l) in {off, BuddyOf(off, l)}
    requires Block(ParentOf(off, l)) in m1
    requires m2 == m1[Block(ParentOf(off, l)) := m1[Block(ParentOf(off, l))].(level := l + 1)]
    ensures Stamped(m2, Join(bs, off), At(ParentOf(off, l)))
    ensures m2[Block(ParentOf(off, l))].free
  {
    hide ParentOf, BuddyOf;
  }

  lemma JoinKeepsCoalesced(bs: Blocks, levels: nat, off: nat)
    requires Coalesced(bs, levels) && off in bs && Size(bs[off].level) < Pow2(64)
    ensures Coalesced(Join(bs, off), levels)
  {
    hide ParentOf, BuddyOf;
  }

  lemma HoleIsBlock(m: Memory, bs: Blocks, lists: seq<seq<nat>>, levels: nat, off: nat)
    requires Consistent(m, bs, lists, levels, At(off))
    ensures off in bs
  {
    hide Tiling, Coalesced, Mapped, Threads, Filed;
  }

  lemma JoinLive(was: Blocks, off0: nat, bs: Blocks, off: nat, levels: nat)
    requires FreedFrom(was, off0, bs, off) && SiblingFree(bs, off) && Size(bs[off].level) < Pow2(64)
    requires ParentOf(off, bs[off].level) in {off, BuddyOf(off, bs[off].level)}
    ensures FreedFrom(was, off0, Join(bs, off), ParentOf(off, bs[off].level))
  {
    hide ParentOf, BuddyOf, Size, Pow2;
    var p := ParentOf(off, bs[off].level);
    assert Live(Join(bs, off)) - {p} == Live(bs) - {off};
  }

  lemma PushThreads(m: Memory, m': Memory, bs: Blocks, lists: seq<seq<nat>>, level: nat, off: nat)
    requires Threads(m, lists) && Filed(bs, lists) && level < |lists|
    requires off in bs ==> !bs[off].free
    requires RelinkedOnly(m, m', level, lists[level] + [off])
    requires Threaded(m', level, lists[level] + [off])
    ensures Threads(m', lists[level := lists[level] + [off]])
  {
    forall i: nat, o: nat | i < |lists| && i != level && o in lists[i]
      ensures o !in lists[level] + [off]
    {
      assert o in bs && bs[o] == Tag(i, true);
    }
    OtherThreads(m, m', lists, level, lists[level] + [off]);
  }

  lemma PopThreads(m: Memory, m': Memory, bs: Blocks, lists: seq<seq<nat>>, level: nat, s: seq<nat>)
    requires Threads(m, lists) && Filed(bs, lists) && level < |lists|
    requires RelinkedOnly(m, m', level, lists[level]) && Threaded(m', level, s)
    ensures Threads(m', lists[level := s])
  {
    forall i: nat, o: nat | i < |lists| && i != level && o in lists[i]
      ensures o !in lists[level]
    {
      assert o in bs && bs[o] == Tag(i, true);
    }
    OtherThreads(m, m', lists, level, lists[level]);
  }

  /** Unlisting the n-th block of a list and withholding it. */
  lemma PopFiled(m: Memory, bs: Blocks, lists: seq<seq<nat>>, level: nat, n: nat)
    requires Filed(bs, lists) && level < |lists| && n < |lists[level]| && Threaded(m, level, lists[level])
    ensures var s := lists[level];
            Filed(bs[s[n] := Tag(level, false)], lists[level := s[..n] + s[n + 1..]])
  {
    var s := lists[level];
    var t := s[..n] + s[n + 1..];
    assert s[n] in s;
    CutMembers(s, n);
    var bs' := bs[s[n] := Tag(level, false)];
    var lists' := lists[level := t];
    forall i: nat, o: nat | i < |lists|
      ensures o in lists'[i] <==> (o in bs' && bs'[o] == Tag(i, true))
    {
      assert o in lists[i] <==> (o in bs && bs[o] == Tag(i, true));
    }
  }

  lemma CutMembers(s: seq<nat>, n: nat)
    requires NoDuplicates(s) && n < |s|
    ensures forall o: nat :: o in s[..n] + s[n + 1..] <==> o in s && o != s[n]
  {
    var t := s[..n] + s[n + 1..];
    forall o: nat
      ensures o in t <==> o in s && o != s[n]
    {
      if o in s && o != s[n] {
        var k :| 0 <= k < |s| && s[k] == o;
        assert k < n ==> t[k] == o;
        assert k > n ==> t[k - 1] == o;
      }
    }
  }

  /** After the level of a withheld block is lowered by one, its upper half can be filed. */
  lemma LoweredLevel(m: Memory, m': Memory, bs: Blocks, lists: seq<seq<nat>>, levels: nat, off: nat)
    requires Consistent(m, bs, lists, levels, At(off)) && bs[off].level > 1
    requires m' == m[Block(off) := m[Block(off)].(level := bs[off].level - 1)]
    ensures var l := bs[off].level - 1; var b := BuddyOf(off, l);
            b == off + Size(l) && b !in bs && Block(b) in m' &&
            bs[off := Tag(l, false)][b := Tag(l, true)] == Halve(bs, off)
    ensures Tiling(Halve(bs, off), levels) && Coalesced(Halve(bs, off), levels)
    ensures Mapped(m', levels) && Threads(m', lists)
    ensures Filed(bs[off := Tag(bs[off].level - 1, false)], lists)
    ensures Stamped(m', bs[off := Tag(bs[off].level - 1, false)], At(off))
  {
    HalveKeepsTiling(bs, levels, off);
    HalveKeepsCoalesced(bs, levels, off);
    UpperHalf(bs, levels, off);
    HalfMapped(off + Size(bs[off].level - 1), bs[off].level - 1, levels);
    LevelRewritten(m, m', bs, lists, off, bs[off].level - 1);
  }

  lemma LevelRewritten(m: Memory, m': Memory, bs: Blocks, lists: seq<seq<nat>>, off: nat, level: nat)
    requires Stamped(m, bs, At(off)) && Filed(bs, lists) && Threads(m, lists)
    requires off in bs && !bs[off].free
    requires m' == m[Block(off) := m[Block(off)].(level := level)]
    ensures Stamped(m', bs[off := Tag(level, false)], At(off))
    ensures Filed(bs[off := Tag(level, false)], lists)
    ensures Threads(m', lists)
  {
    RefiledLevel(bs, lists, off, level);
    hide Filed;
    ThreadedEverywhere(m, m', lists);
    hide Threads;
  }

  lemma RefiledLevel(bs: Blocks, lists: seq<seq<nat>>, off: nat, level: nat)
    requires Filed(bs, lists) && off in bs && !bs[off].free
    ensures Filed(bs[off := Tag(level, false)], lists)
  {}

  lemma HalfMapped(o: nat, level: nat, levels: nat)
    requires 2 <= levels && level >= 1 && Placed(o, level, levels)
    ensures Aligned(o, 1) && o < Total(levels)
  {
    AlignedDown(o, level, 1);
  }

  lemma PushFiled(bs: Blocks, lists: seq<seq<nat>>, level: nat, off: nat)
    requires Filed(bs, lists) && level < |lists|
    requires off in bs ==> !bs[off].free
    ensures off !in lists[level]
    ensures Filed(bs[off := Tag(level, true)], lists[level := lists[level] + [off]])
  {}

  lemma PushStamped(m: Memory, m': Memory, bs: Blocks, s: seq<nat>, hole: Ptr, off: nat, level: nat)
    requires RelinkedOnly(m, m', level, s + [off]) && Block(off) in m
    requires m[Block(off)].free && m[Block(off)].level == level
    requires forall o | o in bs && o != off :: Block(o) in m && m[Block(o)].level == bs[o].level &&
                                              (hole == At(o) || m[Block(o)].free == bs[o].free)
    ensures Stamped(m', bs[off := Tag(level, true)], hole)
  {}

  lemma LevelCount(memSize: nat, log: nat)
    requires 32 <= memSize < 0x8000_0000 && Pow2(log) <= memSize < Pow2(log + 1)
    ensures 5 <= log <= 30
    ensures Pow2(log) == Size(log - MIN_ALLOC_LOG_2)
  {
    Pow2Values();
    if log < 5 {
      Pow2Monotone(log + 1, 5);
    } else if log > 30 {
      Pow2Monotone(31, log);
    }
  }

  lemma WholeHeap(levels: nat)
    requires 2 <= levels <= 27
    ensures Tiling(map[0 := Tag(levels - 1, true)], levels)
    ensures Coalesced(map[0 := Tag(levels - 1, true)], levels)
  {
    var bs := map[0 := Tag(levels - 1, true)];
    forall x: nat | x < Total(levels)
      ensures Covered(bs, x)
    {
      assert Covers(bs, 0, x);
    }
  }

  lemma ThreadedEverywhere(m: Memory, m': Memory, lists: seq<seq<nat>>)
    requires Threads(m, lists)
    requires forall a | a in m :: a in m' && m'[a].prev == m[a].prev && m'[a].next == m[a].next
    ensures Threads(m', lists)
  {
    forall i: nat | i < |lists|
      ensures Threaded(m', i, lists[i])
    {
      assert InMemory(m, i, lists[i]);
      ThreadedElsewhere(m, m', i, lists[i]);
    }
  }

  // ----- what callers get -----

  /** A granted block lies in the arena, clear of every block that was already allocated. */
  lemma GrantedIsExclusive(bs: Blocks, bs': Blocks, levels: nat, off: nat, level: nat)
    requires Tiling(bs, levels) && Tiling(bs', levels) && Granted(bs, bs', off, level)
    ensures off !in Live(bs) && off + Size(level) <= Total(levels) && Aligned(off, level)
    ensures forall o | o in Live(bs) ::
              o in Live(bs') && Live(bs')[o] == Live(bs)[o] &&
              (o + Size(Live(bs)[o]) <= off || off + Size(level) <= o)
  {
    hide Aligned, Size, Covered;
    assert Placed(off, bs'[off].level, levels);
    forall o | o in Live(bs)
      ensures o + Size(Live(bs)[o]) <= off || off + Size(level) <= o
    {
      assert o in bs' && bs'[o] == bs[o];
    }
  }

  /** The block granted for a request that passed the size test holds the request and its header
      exactly when the two together fit in the int the request is kept in. */
  lemma RequestHeldIffItFits(nbytes: nat, maxMemSize: nat, levels: nat)
    requires !Rejected(nbytes, maxMemSize) && 0 < levels <= 27
    requires LevelFor(RealBytes(nbytes)) < levels
    ensures Size(LevelFor(RealBytes(nbytes))) >= nbytes + HEADER_SIZE <==> nbytes + HEADER_SIZE < 0x8000_0000
  {
    hide LevelFor;
    var l := LevelFor(RealBytes(nbytes));
    Pow2Monotone(MIN_ALLOC_LOG_2 + l, 30);
    Pow2Values();
    LevelForHolds(RealBytes(nbytes));
  }

  lemma LevelForHolds(bytes: nat)
    ensures bytes <= Size(LevelFor(bytes))
    ensures forall l: nat | l < LevelFor(bytes) :: Size(l) < bytes
  {
    var r := LevelFor(bytes);
    forall l: nat | l < r
      ensures Size(l) < bytes
    {
      Pow2Monotone(MIN_ALLOC_LOG_2 + l, MIN_ALLOC_LOG_2 + r - 1);
    }
  }

  /** A request just over 4 GiB is cut down to a 32-byte block. */
  lemma OversizedRequestExample()
    ensures RealBytes(0x1_0000_0008) == 32 && LevelFor(32) == 1 && Size(1) == 32
  {
    Pow2Values();
    LevelForUnique(32, 1);
  }

  /** The block a request is to get holds its own header exactly when the wrapped size is more than 16. */
  lemma BlockHoldsHeader(nbytes: nat, maxMemSize: nat)
    requires !Rejected(nbytes, maxMemSize) && RealBytes(nbytes) != 0
    ensures Size(LevelFor(RealBytes(nbytes))) >= HEADER_SIZE <==> RealBytes(nbytes) > 16
  {
    var bytes := RealBytes(nbytes);
    Pow2Values();
    LevelForHolds(bytes);
    if bytes <= 16 {
      LevelForUnique(bytes, 0);
    } else {
      Pow2Monotone(MIN_ALLOC_LOG_2 + 1, MIN_ALLOC_LOG_2 + LevelFor(bytes));
    }
  }

  /** On the kernel's own 64 MiB heap a request just under 4 GiB passes the size test with one byte. */
  lemma SmallBlockExample()
    ensures !Rejected(0xFFFF_FFE9, 0x400_0000) && RealBytes(0xFFFF_FFE9) == 1
    ensures Size(LevelFor(1)) == 16 < HEADER_SIZE
  {
    Pow2Values();
    LevelForUnique(1, 0);
  }

  /** On the kernel's own 64 MiB heap, fresh, a request one byte over the largest block passes the
      size test although no block can hold it, so mallocCust does not answer NULL. */
  lemma OutOfMemoryExample()
    ensures !Rejected(0x400_0000 - 23, 0x400_0000)
    ensures !Fits(map[0 := Tag(22, true)], LevelFor(RealBytes(0x400_0000 - 23)))
  {
    assert RealBytes(0x400_0000 - 23) == 0x400_0001;
    hide Pow2, LevelFor, RealBytes;
    Pow2Values();
    LevelForHolds(0x400_0001);
    if LevelFor(0x400_0001) <= 22 {
      Pow2Monotone(MIN_ALLOC_LOG_2 + LevelFor(0x400_0001), MIN_ALLOC_LOG_2 + 22);
    }
  }

  /** Freeing the block just granted restores the heap exactly, and so does any other sequence of
      calls that ends with the same blocks allocated. */
  lemma FreeUndoesMalloc(bs: Blocks, bs': Blocks, bs'': Blocks, levels: nat, off: nat, level: nat)
    requires levels <= 27
    requires Tiling(bs, levels) && Coalesced(bs, levels) && Tiling(bs'', levels) && Coalesced(bs'', levels)
    requires Granted(bs, bs', off, level) && Live(bs'') == Live(bs') - {off}
    ensures bs'' == bs
  {
    hide Tiling, Coalesced;
    assert Live(bs'') == Live(bs);
    LiveDeterminesBlocks(bs, bs'', levels);
  }
}
