/** bmfs.c on the in-memory directory: 64 records, live ones with an extent of blocks, deleted ones with
    the extent they had, and a record that ends the directory. A new file goes into the lowest gap that
    is wide enough. */
module Bmfs {

  const RECORDS: nat := 64
  const WORD64: nat := 0x1_0000_0000_0000_0000

  /** More blocks than there are on any disk: its size in MiB is a 32-bit number. */
  const MAX_BLOCKS: nat := 0x8000_0000

  /** The first byte of FileName tells a live record from a deleted one (0x01) and from the end (0x00). */
  datatype Mark = End | Deleted | Live(name: string)

  /** struct BMFSEntry. */
  datatype Entry = Entry(mark: Mark, start: nat, reserved: nat, size: nat)

  datatype Outcome = AlreadyThere | NoSlot | NoRoom | Placed(start: nat)

  datatype Option<T> = None | Some(value: T)

  // ----- directories -----

  /** How many records come before the end, which is how create counts them. */
  function Used(dir: seq<Entry>): (u: nat)
    ensures u <= |dir| && (u < |dir| ==> dir[u].mark == End)
    ensures forall i: nat | i < u :: dir[i].mark != End
  {
    if dir == [] || dir[0].mark == End then 0 else 1 + Used(dir[1..])
  }

  /** Every block of an extent is between the first block and the last, which are not for files. A
      deleted record keeps the extent it had. */
  predicate InRange(e: Entry, blocks: nat) {
    e.mark != End ==> 1 <= e.start && e.start + e.reserved + 1 <= blocks
  }

  /** Two records do not claim the same block. */
  predicate Apart(a: Entry, b: Entry) {
    a.mark.Live? && b.mark.Live? ==> a.start + a.reserved <= b.start || b.start + b.reserved <= a.start
  }

  ghost predicate ExtentsOk(es: seq<Entry>, blocks: nat) {
    && (forall i: nat | i < |es| :: InRange(es[i], blocks))
    && (forall i: nat, j: nat | i < j < |es| :: Apart(es[i], es[j]))
  }

  /** No file without blocks starts where a file with blocks does. */
  ghost predicate Clear(es: seq<Entry>) {
    forall e, f | e in es && f in es && e.mark.Live? && f.mark.Live? && e.reserved == 0 && f.reserved > 0 ::
      e.start != f.start
  }

  /** A file of n blocks at p would be in range, and apart from every live file. */
  ghost predicate Fits(es: seq<Entry>, blocks: nat, p: nat, n: nat) {
    && InBounds(p, n, blocks)
    && forall e | e in es && e.mark.Live? :: p + n <= e.start || e.start + e.reserved <= p
  }

  /** The lowest place for n blocks. */
  ghost predicate Lowest(es: seq<Entry>, blocks: nat, p: nat, n: nat) {
    Fits(es, blocks, p, n) && forall q: nat | q < p :: !Fits(es, blocks, q, n)
  }

  /** Position of the live record with a name, or the number of records in use. */
  function Find(dir: seq<Entry>, name: string): (i: nat)
    ensures i <= Used(dir)
    ensures i < Used(dir) ==> dir[i].mark == Live(name)
    ensures forall j: nat | j < i :: dir[j].mark != Live(name)
  {
    if dir == [] || dir[0].mark == End || dir[0].mark == Live(name) then 0 else 1 + Find(dir[1..], name)
  }

  predicate Present(dir: seq<Entry>, name: string) {
    Find(dir, name) < Used(dir)
  }

  /** The first deleted record, or the one that ends the directory. */
  function FreeSlot(dir: seq<Entry>): (i: nat)
    ensures i <= Used(dir)
    ensures i < Used(dir) ==> dir[i].mark == Deleted
    ensures forall j: nat | j < i :: dir[j].mark.Live?
  {
    if dir == [] || !dir[0].mark.Live? then 0 else 1 + FreeSlot(dir[1..])
  }

  // ----- the gap search -----

  /** StartingBlockCmp: live records by their first block, deleted ones last. */
  ghost predicate Sorted(es: seq<Entry>) {
    forall i: nat, j: nat | i < j < |es| && es[j].mark.Live? :: es[i].mark.Live? && es[i].start <= es[j].start
  }

  /** Subtraction of unsigned 64-bit numbers. */
  function Sub64(a: nat, b: nat): nat {
    (a - b) % WORD64
  }

  /** Where an extent ends, as an unsigned 64-bit number. */
  function EndOf(e: Entry): nat {
    (e.start + e.reserved) % WORD64
  }

  lemma EndInRange(e: Entry, blocks: nat)
    requires InRange(e, blocks) && e.mark != End && blocks < MAX_BLOCKS
    ensures EndOf(e) == e.start + e.reserved
  {}

  /** The end of the gap before record i. */
  function GapEnd(es: seq<Entry>, i: nat, blocks: nat): nat
    requires i <= |es| && blocks >= 1
  {
    if i == |es| || es[i].mark == Deleted then blocks - 1 else es[i].start
  }

  /** The loop of create over the sorted records, from record i on, prev being where the one before
      ends. */
  function Scan(es: seq<Entry>, i: nat, prev: nat, n: nat, blocks: nat): Option<nat>
    requires i <= |es| && blocks >= 1
    decreases |es| - i
  {
    if Sub64(GapEnd(es, i, blocks), prev) >= n then Some(prev)
    else if i == |es| then None
    else Scan(es, i + 1, EndOf(es[i]), n, blocks)
  }

  /** Sorted live records that are apart follow one another, where none of them is hidden by another. */
  lemma FollowsOn(es: seq<Entry>, i: nat, j: nat, blocks: nat)
    requires ExtentsOk(es, blocks) && Sorted(es) && Clear(es) && i < j < |es| && es[j].mark.Live?
    ensures es[i].mark.Live? && es[i].start + es[i].reserved <= es[j].start
  {
    assert Apart(es[i], es[j]) && es[i] in es && es[j] in es;
  }

  /** Where the search stands: everything before record i is live and ends by prev, and nothing fits
      below prev. */
  ghost predicate Searched(es: seq<Entry>, i: nat, prev: nat, n: nat, blocks: nat) {
    && i <= |es| && 1 <= prev && prev + 1 <= blocks
    && (forall j: nat | j < i :: es[j].mark.Live? && es[j].start + es[j].reserved <= prev)
    && (forall j: nat | i <= j < |es| && es[j].mark.Live? :: prev <= es[j].start)
    && (forall p: nat | p < prev :: !Fits(es, blocks, p, n))
  }

  /** A gap that is too narrow: nothing fits before the record ends that closes it. */
  lemma GapTooNarrow(es: seq<Entry>, i: nat, prev: nat, n: nat, blocks: nat)
    requires ExtentsOk(es, blocks) && Sorted(es) && Clear(es) && Searched(es, i, prev, n, blocks)
    requires i < |es| && es[i].mark.Live? && es[i].start - prev < n
    ensures Searched(es, i + 1, es[i].start + es[i].reserved, n, blocks)
  {
    var e := es[i];
    assert InRange(e, blocks) && e in es;
    forall p: nat | p < e.start + e.reserved ensures !Fits(es, blocks, p, n) {
      if p >= prev && p + n <= e.start {
        assert false;
      }
    }
    forall j: nat | i + 1 <= j < |es| && es[j].mark.Live? ensures e.start + e.reserved <= es[j].start {
      FollowsOn(es, i, j, blocks);
    }
  }

  /** A gap that is wide enough: its start is the lowest place. */
  lemma GapFits(es: seq<Entry>, i: nat, prev: nat, n: nat, blocks: nat)
    requires ExtentsOk(es, blocks) && Sorted(es) && Clear(es) && Searched(es, i, prev, n, blocks)
    requires GapEnd(es, i, blocks) - prev >= n && forall j: nat | j < |es| :: es[j].mark != End
    ensures Lowest(es, blocks, prev, n)
  {
    forall e | e in es && e.mark.Live? ensures prev + n <= e.start || e.start + e.reserved <= prev {
      var j: nat :| j < |es| && es[j] == e;
      if j >= i {
        if i < j {
          FollowsOn(es, i, j, blocks);
        }
        assert GapEnd(es, i, blocks) <= e.start;
      }
    }
    if i < |es| && es[i].mark.Live? {
      assert InRange(es[i], blocks);
    }
  }

  /** After the last live record, nothing fits but in the last gap. */
  lemma LastGapTooNarrow(es: seq<Entry>, i: nat, prev: nat, n: nat, blocks: nat)
    requires Searched(es, i, prev, n, blocks) && blocks - 1 - prev < n
    ensures forall p: nat :: !Fits(es, blocks, p, n)
  {}

  /** A deleted record after whose old extent n blocks would seem to fit. */
  predicate Misleads(e: Entry, n: nat, blocks: nat) {
    e.mark == Deleted && e.start + e.reserved + n + 1 <= blocks
  }

  /** A file of n blocks at p would be on the disk. */
  predicate InBounds(p: nat, n: nat, blocks: nat) {
    1 <= p && p + n + 1 <= blocks
  }

  /** Among deleted records the search goes by what they used to reserve. */
  lemma {:induction false} ScanDeleted(es: seq<Entry>, i: nat, prev: nat, n: nat, blocks: nat)
    requires i <= |es| && 1 <= blocks < MAX_BLOCKS && 1 <= prev < blocks
    requires forall j: nat | i <= j < |es| :: es[j].mark == Deleted && InRange(es[j], blocks)
    ensures Scan(es, i, prev, n, blocks) == None <==>
            prev + n + 1 > blocks && forall j: nat | i <= j < |es| :: !Misleads(es[j], n, blocks)
    ensures Scan(es, i, prev, n, blocks).Some? ==> InBounds(Scan(es, i, prev, n, blocks).value, n, blocks)
    decreases |es| - i
  {
    assert Sub64(blocks - 1, prev) == blocks - 1 - prev;
    if i < |es| {
      EndInRange(es[i], blocks);
      ScanDeleted(es, i + 1, EndOf(es[i]), n, blocks);
    }
  }

  /** The search finds the lowest place if there is one. Where there is none, it finds none exactly when
      no deleted record misleads it. */
  ghost predicate Finds(es: seq<Entry>, s: Option<nat>, n: nat, blocks: nat) {
    if exists p: nat :: Fits(es, blocks, p, n) then s.Some? && Lowest(es, blocks, s.value, n)
    else (s == None <==> forall e | e in es :: !Misleads(e, n, blocks)) && (s.Some? ==> InBounds(s.value, n, blocks))
  }

  lemma {:induction false} ScanFindsLowest(es: seq<Entry>, i: nat, prev: nat, n: nat, blocks: nat)
    requires ExtentsOk(es, blocks) && Sorted(es) && Clear(es) && Searched(es, i, prev, n, blocks)
    requires blocks < MAX_BLOCKS && forall j: nat | j < |es| :: es[j].mark != End
    ensures Finds(es, Scan(es, i, prev, n, blocks), n, blocks)
    decreases |es| - i
  {
    GapWidth(es, i, prev, n, blocks);
    if GapEnd(es, i, blocks) - prev >= n {
      GapFits(es, i, prev, n, blocks);
    } else if i < |es| && es[i].mark.Live? {
      GapTooNarrow(es, i, prev, n, blocks);
      EndInRange(es[i], blocks);
      hide ExtentsOk, Sorted, Clear, Searched, Finds, GapEnd, EndOf, Sub64;
      ScanFindsLowest(es, i + 1, EndOf(es[i]), n, blocks);
    } else {
      LastGapTooNarrow(es, i, prev, n, blocks);
      LiveEnds(es, i, blocks);
      hide Scan, Fits, Sorted, Clear, Misleads;
      ScanDeleted(es, i, prev, n, blocks);
      MisleadsAt(es, i, n, blocks);
    }
  }

  /** The gap does not wrap. */
  lemma GapWidth(es: seq<Entry>, i: nat, prev: nat, n: nat, blocks: nat)
    requires ExtentsOk(es, blocks) && Searched(es, i, prev, n, blocks) && blocks < MAX_BLOCKS
    requires i < |es| ==> es[i].mark != End
    ensures prev <= GapEnd(es, i, blocks) && Sub64(GapEnd(es, i, blocks), prev) == GapEnd(es, i, blocks) - prev
  {
    if i < |es| && es[i].mark.Live? {
      assert InRange(es[i], blocks);
    }
  }

  /** The live records come first. */
  lemma LiveEnds(es: seq<Entry>, i: nat, blocks: nat)
    requires Sorted(es) && i <= |es| && (i < |es| ==> es[i].mark == Deleted)
    requires forall j: nat | j < |es| :: es[j].mark != End
    ensures forall j: nat | i <= j < |es| :: es[j].mark == Deleted
  {}

  lemma MisleadsAt(es: seq<Entry>, i: nat, n: nat, blocks: nat)
    requires i <= |es| && forall j: nat | j < i :: es[j].mark.Live?
    ensures (forall e | e in es :: !Misleads(e, n, blocks)) <==>
            forall j: nat | i <= j < |es| :: !Misleads(es[j], n, blocks)
  {
    if forall j: nat | i <= j < |es| :: !Misleads(es[j], n, blocks) {
      forall e | e in es ensures !Misleads(e, n, blocks) {
        var j: nat :| j < |es| && es[j] == e;
      }
    }
  }

  // ----- sorting -----

  lemma {:induction false} CountTwice(q: seq<Entry>, i: nat, j: nat)
    requires i < j < |q| && q[i] == q[j]
    ensures multiset(q)[q[i]] >= 2
  {
    assert q == q[..j] + q[j..];
    assert q[..j][i] == q[i] && q[j..][0] == q[j];
    assert q[i] in multiset(q[..j]) && q[j] in multiset(q[j..]);
  }

  lemma {:induction false} TwiceMeansTwo(q: seq<Entry>, e: Entry)
    requires multiset(q)[e] >= 2
    ensures exists i: nat, j: nat :: i < j < |q| && q[i] == e && q[j] == e
  {
    assert q == [q[0]] + q[1..];
    if q[0] == e {
      assert multiset(q[1..])[e] >= 1;
      assert e in q[1..];
      var j: nat :| j < |q[1..]| && q[1..][j] == e;
      assert q[0] == e && q[j + 1] == e;
    } else {
      TwiceMeansTwo(q[1..], e);
      var i: nat, j: nat :| i < j < |q[1..]| && q[1..][i] == e && q[1..][j] == e;
      assert q[i + 1] == e && q[j + 1] == e;
    }
  }

  /** Sorting moves records, but changes none. */
  lemma PermutationOk(es: seq<Entry>, r: seq<Entry>, blocks: nat)
    requires ExtentsOk(es, blocks) && multiset(es) == multiset(r)
    ensures ExtentsOk(r, blocks) && forall e :: e in r <==> e in es
  {
    assert forall e :: e in es <==> e in multiset(es);
    assert forall e :: e in r <==> e in multiset(r);
    forall i: nat | i < |r| ensures InRange(r[i], blocks) {
      assert r[i] in es;
      var a: nat :| a < |es| && es[a] == r[i];
    }
    forall i: nat, j: nat | i < j < |r| ensures Apart(r[i], r[j]) {
      if r[i] == r[j] {
        CountTwice(r, i, j);
        TwiceMeansTwo(es, r[i]);
        var a: nat, b: nat :| a < b < |es| && es[a] == r[i] && es[b] == r[i];
        assert Apart(es[a], es[b]);
      } else {
        assert r[i] in es && r[j] in es;
        var a: nat :| a < |es| && es[a] == r[i];
        var b: nat :| b < |es| && es[b] == r[j];
        assert a < b ==> Apart(es[a], es[b]);
        assert b < a ==> Apart(es[b], es[a]);
      }
    }
  }

  lemma FitsSame(es: seq<Entry>, r: seq<Entry>, blocks: nat, p: nat, n: nat)
    requires forall e :: e in r <==> e in es
    ensures Fits(es, blocks, p, n) <==> Fits(r, blocks, p, n)
  {}

  /** What qsort may make of the records: ties come in any order. */
  ghost predicate Sorting(es: seq<Entry>, r: seq<Entry>) {
    multiset(es) == multiset(r) && Sorted(r)
  }

  /** The search over any sorting of the records in use. */
  lemma SearchFindsLowest(es: seq<Entry>, r: seq<Entry>, n: nat, blocks: nat)
    requires ExtentsOk(es, blocks) && Clear(es) && Sorting(es, r) && 2 <= blocks < MAX_BLOCKS
    requires forall e | e in es :: e.mark != End
    ensures Finds(es, Scan(r, 0, 1, n, blocks), n, blocks)
  {
    PermutationOk(es, r, blocks);
    forall p: nat ensures Fits(es, blocks, p, n) <==> Fits(r, blocks, p, n) {
      FitsSame(es, r, blocks, p, n);
    }
    assert forall j: nat | j < |r| :: r[j] in es;
    forall j: nat | j < |r| && r[j].mark.Live? ensures 1 <= r[j].start {
      assert InRange(r[j], blocks);
    }
    hide ExtentsOk, Fits, Scan, Misleads;
    ScanFindsLowest(r, 0, 1, n, blocks);
  }

  lemma InsertSorted(q: seq<Entry>, e: Entry) returns (r: seq<Entry>)
    requires Sorted(q)
    ensures Sorted(r) && multiset(r) == multiset(q) + multiset{e}
  {
    if q == [] || !q[0].mark.Live? || (e.mark.Live? && e.start <= q[0].start) {
      r := [e] + q;
    } else {
      var rest := InsertSorted(q[1..], e);
      r := [q[0]] + rest;
      assert q == [q[0]] + q[1..];
      HeadSorted(q, e, rest);
    }
  }

  lemma HeadSorted(q: seq<Entry>, e: Entry, rest: seq<Entry>)
    requires Sorted(q) && q != [] && q[0].mark.Live? && (e.mark.Live? ==> q[0].start <= e.start) && Sorted(rest)
    requires multiset(rest) == multiset(q[1..]) + multiset{e}
    ensures Sorted([q[0]] + rest)
  {
    forall j: nat | j < |rest| && rest[j].mark.Live? ensures q[0].start <= rest[j].start {
      assert rest[j] in multiset(rest);
      if rest[j] != e {
        assert rest[j] in q[1..];
      }
    }
  }

  /** There is a sorting of any records. */
  lemma {:induction false} SomeSorting(es: seq<Entry>) returns (r: seq<Entry>)
    ensures Sorting(es, r)
  {
    if es == [] {
      r := [];
    } else {
      var q := SomeSorting(es[1..]);
      r := InsertSorted(q, es[0]);
      assert es == [es[0]] + es[1..];
    }
  }

  lemma TakeOut(es: seq<Entry>, e: Entry) returns (rest: seq<Entry>)
    requires e in es
    ensures multiset(es) == multiset(rest) + multiset{e}
    ensures forall f | f in es && f != e :: f in rest
  {
    var a: nat :| a < |es| && es[a] == e;
    rest := es[..a] + es[a + 1..];
    assert es == es[..a] + [e] + es[a + 1..];
  }

  /** Records that start before a block, in front of the others. */
  lemma Before(q: seq<Entry>, start: nat) returns (k: nat)
    requires Sorted(q)
    ensures k <= |q|
    ensures forall j: nat | j < k :: q[j].mark.Live? && q[j].start < start
    ensures forall j: nat | k <= j < |q| && q[j].mark.Live? :: start <= q[j].start
  {
    k := 0;
    while k < |q| && q[k].mark.Live? && q[k].start < start
      invariant k <= |q|
      invariant forall j: nat | j < k :: q[j].mark.Live? && q[j].start < start
    {
      k := k + 1;
    }
  }

  /** A file with blocks sorted just before one without blocks that starts at the same place. */
  lemma HiddenSorting(es: seq<Entry>, e: Entry, f: Entry) returns (r: seq<Entry>, i: nat)
    requires e in es && f in es && e.mark.Live? && f.mark.Live? && e != f && e.start == f.start
    ensures Sorting(es, r) && 0 < i < |r| && r[i] == e && r[i - 1] == f
  {
    var rest := TakeOut(es, e);
    var others := TakeOut(rest, f);
    var q := SomeSorting(others);
    var k := Before(q, e.start);
    r, i := q[..k] + [f, e] + q[k..], k + 1;
    PairSorted(q, k, f, e);
    PairMembers(q, k, f, e);
    hide Sorted;
  }

  lemma PairSorted(q: seq<Entry>, k: nat, f: Entry, e: Entry)
    requires Sorted(q) && k <= |q| && e.mark.Live? && f.mark.Live? && e.start == f.start
    requires forall j: nat | j < k :: q[j].mark.Live? && q[j].start < e.start
    requires forall j: nat | k <= j < |q| && q[j].mark.Live? :: e.start <= q[j].start
    ensures Sorted(q[..k] + [f, e] + q[k..])
  {
    var r := q[..k] + [f, e] + q[k..];
    assert forall j: nat | j < |r| ::
        r[j] == if j < k then q[j] else if j == k then f else if j == k + 1 then e else q[j - 2];
  }

  lemma PairMembers(q: seq<Entry>, k: nat, f: Entry, e: Entry)
    requires k <= |q|
    ensures multiset(q[..k] + [f, e] + q[k..]) == multiset(q) + multiset{f} + multiset{e}
  {
    assert q == q[..k] + q[k..];
    assert multiset([f, e]) == multiset{f} + multiset{e};
  }

  /** Where a gap wraps, the search ends there at the latest, with a place. */
  lemma {:induction false} WrapsAt(r: seq<Entry>, i: nat, j: nat, prev: nat, n: nat, blocks: nat)
    requires j < i < |r| && blocks >= 1 && Sub64(GapEnd(r, i, blocks), EndOf(r[i - 1])) >= n
    ensures Scan(r, j, prev, n, blocks).Some?
    decreases i - j
  {
    if j + 1 < i {
      WrapsAt(r, i, j + 1, EndOf(r[j]), n, blocks);
    }
  }

  /** A file without blocks that starts where another one does may be sorted after it; the subtraction
      then wraps, and even a file as large as the disk seems to fit. */
  lemma HiddenMisleads(es: seq<Entry>, blocks: nat) returns (r: seq<Entry>)
    requires ExtentsOk(es, blocks) && !Clear(es) && 2 <= blocks < MAX_BLOCKS
    ensures Sorting(es, r) && !Finds(es, Scan(r, 0, 1, blocks, blocks), blocks, blocks)
  {
    var e, f :| e in es && f in es && e.mark.Live? && f.mark.Live? && e.reserved == 0 && f.reserved > 0 &&
      e.start == f.start;
    var i: nat;
    r, i := HiddenSorting(es, e, f);
    assert InRange(f, blocks) by {
      var a: nat :| a < |es| && es[a] == f;
    }
    EndInRange(f, blocks);
    assert Sub64(e.start, EndOf(f)) == e.start - EndOf(f) + WORD64;
    WrapsAt(r, i, 0, 1, blocks, blocks);
    assert forall p: nat :: !Fits(es, blocks, p, blocks);
    forall d | d in es ensures !Misleads(d, blocks, blocks) {
      var a: nat :| a < |es| && es[a] == d;
      assert InRange(es[a], blocks);
    }
  }

  /** The search finds what it should, for every size and every sorting, exactly when no file without
      blocks starts where a file with blocks does. */
  lemma FindsIffClear(es: seq<Entry>, blocks: nat)
    requires ExtentsOk(es, blocks) && 2 <= blocks < MAX_BLOCKS && forall e | e in es :: e.mark != End
    ensures (forall r, n: nat | Sorting(es, r) :: Finds(es, Scan(r, 0, 1, n, blocks), n, blocks)) <==> Clear(es)
  {
    hide ExtentsOk, Finds, Scan, Sorting;
    if Clear(es) {
      forall r, n: nat | Sorting(es, r) ensures Finds(es, Scan(r, 0, 1, n, blocks), n, blocks) {
        SearchFindsLowest(es, r, n, blocks);
      }
    } else {
      var r := HiddenMisleads(es, blocks);
    }
  }

  /** qsort with StartingBlockCmp: records end up sorted, ties in any order. */
  method QSort(es: seq<Entry>) returns (r: seq<Entry>)
    ensures Sorting(es, r)
  {
    r := [];
    for i := 0 to |es|
      invariant Sorted(r) && multiset(r) == multiset(es[..i])
    {
      assert es[..i + 1] == es[..i] + [es[i]];
      r := Insert(r, es[i]);
    }
    assert es[..|es|] == es;
  }

  method Insert(q: seq<Entry>, e: Entry) returns (r: seq<Entry>)
    requires Sorted(q)
    ensures Sorted(r) && multiset(r) == multiset(q + [e])
  {
    var i: nat := 0;
    while i < |q| && q[i].mark.Live? && (!e.mark.Live? || q[i].start <= e.start)
      invariant i <= |q|
      invariant forall j: nat | j < i :: q[j].mark.Live? && (!e.mark.Live? || q[j].start <= e.start)
    {
      i := i + 1;
    }
    r := q[..i] + [e] + q[i..];
    assert q == q[..i] + q[i..];
  }

  // ----- the directory on a disk -----

  /** How many blocks of two MiB a file of maxsize MiB gets; the size, a 64-bit word, is made even first. */
  function Blocks(maxsize: nat): nat {
    (if maxsize % 2 != 0 then maxsize + 1 else maxsize) % WORD64 / 2
  }

  /** The blocks hold the size, with less than a block to spare; but the largest size of all wraps. */
  predicate HoldSize(n: nat, maxsize: nat) {
    if maxsize == WORD64 - 1 then n == 0 else maxsize <= 2 * n < maxsize + 2
  }

  lemma BlocksHoldSize(maxsize: nat)
    requires maxsize < WORD64
    ensures HoldSize(Blocks(maxsize), maxsize)
  {}

  ghost predicate Endless(dir: seq<Entry>) {
    forall j: nat | j < |dir| :: dir[j].mark != End
  }

  /** The directory has one record more for a file, the first that was not live; the end moves past it if
      it was the end, and is put there too if it was the first record and there was no end. */
  ghost predicate Added(dir: seq<Entry>, dir': seq<Entry>, name: string, start: nat, maxsize: nat, k: nat) {
    && k < |dir| == |dir'| && !dir[k].mark.Live? && (forall i: nat | i < k :: dir[i].mark.Live?)
    && dir'[k].mark == Live(name) && dir'[k].start == start && HoldSize(dir'[k].reserved, maxsize) && dir'[k].size == 0
    && forall i: nat | i < |dir| && i != k ::
         dir'[i] == if i == k + 1 && (dir[k].mark == End || (k == 0 && Endless(dir)))
                    then dir[i].(mark := End) else dir[i]
  }

  lemma WithFileAdds(dir: seq<Entry>, name: string, start: nat, maxsize: nat)
    requires FreeSlot(dir) < |dir| && maxsize < WORD64
    ensures Added(dir, WithFile(dir, name, start, Blocks(maxsize)), name, start, maxsize, FreeSlot(dir))
  {
    var k, n := FreeSlot(dir), Blocks(maxsize);
    BlocksHoldSize(maxsize);
    CountedIs(dir);
    SlotIs(dir);
    assert WithFile(dir, name, start, n) == Recorded(dir, k, Entry(Live(name), start, n, 0), k == |Counted(dir)|);
    hide Blocks, HoldSize, FreeSlot, Used, Counted, WithFile, Recorded, Added, Endless;
    RecordedAdds(dir, name, start, n, maxsize, k, k == |Counted(dir)|);
  }

  function Recorded(dir: seq<Entry>, k: nat, e: Entry, last: bool): seq<Entry>
    requires k < |dir|
  {
    if last && k + 1 < |dir| then dir[k := e][k + 1 := dir[k + 1].(mark := End)] else dir[k := e]
  }

  lemma RecordedAdds(dir: seq<Entry>, name: string, start: nat, n: nat, maxsize: nat, k: nat, last: bool)
    requires k < |dir| && !dir[k].mark.Live? && (forall i: nat | i < k :: dir[i].mark.Live?) && HoldSize(n, maxsize)
    requires last <==> dir[k].mark == End || (k == 0 && Endless(dir))
    ensures Added(dir, Recorded(dir, k, Entry(Live(name), start, n, 0), last), name, start, maxsize, k)
  {
    hide Endless, HoldSize;
  }

  lemma SlotIs(dir: seq<Entry>)
    requires FreeSlot(dir) < |dir|
    ensures !dir[FreeSlot(dir)].mark.Live? && forall i: nat | i < FreeSlot(dir) :: dir[i].mark.Live?
  {}

  /** Where the count of the records in use is the place of the new record. */
  lemma CountedIs(dir: seq<Entry>)
    requires FreeSlot(dir) < |dir|
    ensures FreeSlot(dir) == |Counted(dir)| <==>
            dir[FreeSlot(dir)].mark == End || (FreeSlot(dir) == 0 && Endless(dir))
  {}

  /** The records that create counts: those in use, or none if the directory does not end. */
  function Counted(dir: seq<Entry>): seq<Entry> {
    if Used(dir) < |dir| then dir[..Used(dir)] else []
  }

  /** The directory with a new file in the free slot, and a new end if the slot is where the count ended. */
  function WithFile(dir: seq<Entry>, name: string, start: nat, n: nat): seq<Entry>
    requires FreeSlot(dir) < |dir|
  {
    var slot, counted := FreeSlot(dir), |Counted(dir)|;
    var dir' := dir[slot := Entry(Live(name), start, n, 0)];
    if slot == counted && counted + 1 < |dir| then dir'[counted + 1 := dir'[counted + 1].(mark := End)] else dir'
  }

  /** What create answers and the directory it leaves, where qsort makes r of the counted records. */
  function Created(dir: seq<Entry>, r: seq<Entry>, name: string, n: nat, blocks: nat): (Outcome, seq<Entry>)
    requires blocks >= 1
  {
    if Present(dir, name) then (AlreadyThere, dir)
    else if FreeSlot(dir) == |dir| then (NoSlot, dir)
    else
      match Scan(r, 0, 1, n, blocks)
      case Some(p) => if p == 0 then (NoRoom, dir) else (Placed(p), WithFile(dir, name, p, n))
      case None => (NoRoom, dir)
  }

  /** The directory with a file marked deleted. */
  function Without(dir: seq<Entry>, name: string): seq<Entry> {
    if Present(dir, name) then dir[Find(dir, name) := dir[Find(dir, name)].(mark := Deleted)] else dir
  }

  /** The record is the first live one with the name, and the directory does not end before it. */
  ghost predicate IsFirst(dir: seq<Entry>, name: string, k: nat) {
    k < |dir| && dir[k].mark == Live(name) && forall j: nat | j < k :: dir[j].mark != End && dir[j].mark != Live(name)
  }

  class Disk {
    const directory: array<Entry>
    const blocks: nat

    /** A disk whose directory was read, of at least the least size. */
    constructor (directory: array<Entry>, disksize: nat)
      requires directory.Length == RECORDS && 6 <= disksize < 0x1_0000_0000
      ensures this.directory == directory && blocks == disksize / 2 && Valid()
    {
      this.directory, blocks := directory, disksize / 2;
    }

    predicate Valid() {
      directory.Length == RECORDS && 3 <= blocks < 0x8000_0000
    }

    /** findfile. */
    method FindFile(name: string) returns (found: bool, slot: nat)
      requires Valid()
      ensures found <==> Present(directory[..], name)
      ensures found ==> slot == Find(directory[..], name)
    {
      var tint: nat := 0;
      while tint < RECORDS
        invariant tint <= RECORDS
        invariant forall j: nat | j < tint :: directory[j].mark != End && directory[j].mark != Live(name)
      {
        if directory[tint].mark == End {
          break;
        }
        if directory[tint].mark == Live(name) {
          FindAt(directory[..], name, tint);
          return true, tint;
        }
        tint := tint + 1;
      }
      FindAt(directory[..], name, tint);
      found, slot := false, 0;
    }

    /** The first loop of create: the number of records in use, and the first free one. */
    method Count() returns (numUsed: nat, firstFree: int)
      requires Valid()
      ensures Used(directory[..]) < RECORDS ==> numUsed == Used(directory[..]) && firstFree == FreeSlot(directory[..])
      ensures Used(directory[..]) == RECORDS ==>
                numUsed == 0 && firstFree == if FreeSlot(directory[..]) < RECORDS then FreeSlot(directory[..]) else -1
    {
      numUsed, firstFree := 0, -1;
      var tint: nat := 0;
      while tint < RECORDS
        invariant tint <= RECORDS && numUsed == 0
        invariant forall j: nat | j < tint :: directory[j].mark != End
        invariant if firstFree == -1 then forall j: nat | j < tint :: directory[j].mark.Live?
                  else 0 <= firstFree < tint && directory[firstFree].mark == Deleted &&
                       forall j: nat | j < firstFree :: directory[j].mark.Live?
      {
        if directory[tint].mark == End {
          UsedAt(directory[..], tint);
          numUsed := tint;
          if firstFree == -1 {
            firstFree := tint;
          }
          FreeAt(directory[..], firstFree);
          return;
        } else if directory[tint].mark == Deleted {
          if firstFree == -1 {
            firstFree := tint;
          }
        }
        tint := tint + 1;
      }
      UsedAt(directory[..], tint);
      FreeAt(directory[..], if firstFree == -1 then tint else firstFree);
    }

    /** The gap search of create. */
    method Search(dirCopy: seq<Entry>, n: nat) returns (newFileStart: nat)
      requires Valid()
      ensures match Scan(dirCopy, 0, 1, n, blocks) case Some(p) => newFileStart == p case None => newFileStart == 0
    {
      var prevFileEnd: nat := 1;
      newFileStart := 0;
      var tint: nat := 0;
      while tint < |dirCopy| + 1
        invariant tint <= |dirCopy| + 1 && newFileStart == 0
        invariant Scan(dirCopy, 0, 1, n, blocks) ==
                  if tint <= |dirCopy| then Scan(dirCopy, tint, prevFileEnd, n, blocks) else None
      {
        var thisFileStart :=
          if tint == |dirCopy| || dirCopy[tint].mark == Deleted then blocks - 1 else dirCopy[tint].start;
        if Sub64(thisFileStart, prevFileEnd) >= n {
          newFileStart := prevFileEnd;
          return;
        }
        if tint < |dirCopy| {
          prevFileEnd := EndOf(dirCopy[tint]);
        }
        tint := tint + 1;
      }
    }

    /** create, for any directory whatsoever. Where it ends and its files are in range and apart, none
        hidden by another, the file goes to the lowest place; if there is none, it is refused exactly
        when no deleted record misleads the search. */
    method Create(name: string, maxsize: nat) returns (r: Outcome, ghost sorted: seq<Entry>)
      requires Valid() && maxsize < WORD64
      modifies directory
      ensures Sorting(Counted(old(directory[..])), sorted)
      ensures (r, directory[..]) == Created(old(directory[..]), sorted, name, Blocks(maxsize), blocks)
      ensures var dir, used, n := old(directory[..]), Counted(old(directory[..])), Blocks(maxsize);
              Used(dir) < RECORDS && !Present(dir, name) && ExtentsOk(used, blocks) && Clear(used) ==>
                if exists p: nat :: Fits(used, blocks, p, n) then r.Placed? && Lowest(used, blocks, r.start, n)
                else r == NoRoom <==> forall e | e in used :: !Misleads(e, n, blocks)
      ensures r == AlreadyThere <==> Present(old(directory[..]), name)
      ensures r == NoSlot <==> !Present(old(directory[..]), name) &&
                               forall k: nat | k < RECORDS :: old(directory[..])[k].mark.Live?
      ensures r.Placed? ==> exists k: nat :: Added(old(directory[..]), directory[..], name, r.start, maxsize, k)
      ensures !r.Placed? ==> directory[..] == old(directory[..])
    {
      ghost var dir := directory[..];
      sorted := SomeSorting(Counted(dir));
      var found, _ := FindFile(name);
      if found {
        return AlreadyThere, sorted;
      }
      var n := Blocks(maxsize);
      var numUsed, firstFree := Count();
      if firstFree == -1 {
        return NoSlot, sorted;
      }
      assert directory[..numUsed] == Counted(dir);
      var dirCopy := QSort(directory[..numUsed]);
      sorted := dirCopy;
      var newFileStart := Search(dirCopy, n);
      SearchMeans(dir, dirCopy, n, blocks);
      hide Sorting, Sorted, Scan, Lowest, Fits, ExtentsOk, Clear, Used, FreeSlot;
      if newFileStart == 0 {
        return NoRoom, sorted;
      }
      directory[firstFree] := Entry(Live(name), newFileStart, n, 0);
      if firstFree == numUsed && numUsed + 1 < RECORDS {
        directory[numUsed + 1] := directory[numUsed + 1].(mark := End);
      }
      r := Placed(newFileStart);
      assert directory[..] == WithFile(dir, name, newFileStart, n);
      WithFileAdds(dir, name, newFileStart, maxsize);
    }

    /** delete. */
    method Delete(name: string) returns (found: bool)
      requires Valid()
      modifies directory
      ensures found == Present(old(directory[..]), name) && directory[..] == Without(old(directory[..]), name)
      ensures forall k: nat | k < RECORDS ::
                directory[k] == if IsFirst(old(directory[..]), name, k) then old(directory[k]).(mark := Deleted)
                                else old(directory[k])
    {
      var slot;
      found, slot := FindFile(name);
      if found {
        directory[slot] := directory[slot].(mark := Deleted);
      }
    }
  }

  lemma {:induction false} UsedAt(dir: seq<Entry>, i: nat)
    requires i <= |dir| && (i < |dir| ==> dir[i].mark == End) && forall j: nat | j < i :: dir[j].mark != End
    ensures Used(dir) == i
  {}

  lemma FindAt(dir: seq<Entry>, name: string, i: nat)
    requires i <= |dir| && forall j: nat | j < i :: dir[j].mark != End && dir[j].mark != Live(name)
    requires i < |dir| ==> dir[i].mark == End || dir[i].mark == Live(name)
    ensures Find(dir, name) == i && (Present(dir, name) <==> i < |dir| && dir[i].mark == Live(name))
  {}

  lemma FreeAt(dir: seq<Entry>, i: nat)
    requires i <= |dir| && (i < |dir| ==> !dir[i].mark.Live?) && forall j: nat | j < i :: dir[j].mark.Live?
    ensures FreeSlot(dir) == i
  {}

  lemma SearchMeans(dir: seq<Entry>, r: seq<Entry>, n: nat, blocks: nat)
    requires Sorting(Counted(dir), r) && 3 <= blocks < MAX_BLOCKS
    ensures Used(dir) < |dir| && ExtentsOk(Counted(dir), blocks) && Clear(Counted(dir)) ==>
              Finds(Counted(dir), Scan(r, 0, 1, n, blocks), n, blocks)
  {
    if Used(dir) < |dir| && ExtentsOk(Counted(dir), blocks) && Clear(Counted(dir)) {
      SearchFindsLowest(Counted(dir), r, n, blocks);
    }
  }
}
