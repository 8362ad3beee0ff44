/** memoryManager.c: the free-list allocator of section 8.7 of The C Programming Language, without
    its zero-size sentinel. Addresses and sizes are counted in header units from the base. */
module FreeList {

  const HEADER_SIZE: nat := 16

  datatype Header = Header(ptr: nat, size: nat)

  type Memory = map<nat, Header>

  datatype Ptr = NULL | At(unit: nat)

  // ----- the blocks the arena is cut into -----

  datatype Piece = Piece(size: nat, free: bool)

  type Pieces = map<nat, Piece>

  ghost predicate Covers(ps: Pieces, o: nat, x: nat) {
    o in ps && o <= x < o + ps[o].size
  }

  ghost predicate Covered(ps: Pieces, x: nat) {
    exists o :: Covers(ps, o, x)
  }

  ghost predicate Disjoint(ps: Pieces) {
    forall a, b | a in ps && b in ps && a < b :: a + ps[a].size <= b
  }

  /** The pieces are non-empty, inside the arena, do not overlap, and leave no unit out. */
  ghost predicate Tiling(ps: Pieces, total: nat) {
    && (forall o | o in ps :: ps[o].size > 0 && o + ps[o].size <= total)
    && Disjoint(ps)
    && (forall x: nat | x < total :: Covered(ps, x))
  }

  /** No free piece ends where another free piece starts. */
  ghost predicate Coalesced(ps: Pieces) {
    forall a, b | a in ps && b in ps && ps[a].free && ps[b].free :: a + ps[a].size != b
  }

  ghost predicate FreeAt(ps: Pieces, o: nat) {
    o in ps && ps[o].free
  }

  ghost function Live(ps: Pieces): map<nat, nat> {
    map o | o in ps && !ps[o].free :: ps[o].size
  }

  // ----- the circular list -----

  function Next(i: nat, n: nat): nat {
    if i + 1 < n then i + 1 else 0
  }

  ghost predicate PointsTo(m: Memory, a: nat, b: nat) {
    a in m && m[a].ptr == b
  }

  ghost predicate Ascending(f: seq<nat>) {
    forall i, j | 0 <= i < j < |f| :: f[i] < f[j]
  }

  /** The list visits exactly f, in address order, and then starts over. */
  ghost predicate Ring(m: Memory, f: seq<nat>) {
    && Ascending(f)
    && forall i: nat, j: nat | i < |f| && j == Next(i, |f|) :: PointsTo(m, f[i], f[j])
  }

  ghost predicate Filed(ps: Pieces, f: seq<nat>) {
    forall o: nat :: o in f <==> o in ps && ps[o].free
  }

  ghost predicate Stamped(m: Memory, ps: Pieces) {
    forall o | o in ps :: o in m && m[o].size == ps[o].size
  }

  /** Memory exists at every unit of the arena. */
  ghost predicate Mapped(m: Memory, total: nat) {
    forall u: nat | u < total :: u in m
  }

  /** The allocator's invariant. */
  ghost predicate Consistent(m: Memory, total: nat, start: nat, f: seq<nat>, ps: Pieces) {
    && Mapped(m, total)
    && Tiling(ps, total)
    && Coalesced(ps)
    && Stamped(m, ps)
    && Filed(ps, f)
    && Ring(m, f)
    && start in f
  }

  /** Some list of free pieces makes the memory consistent. */
  ghost predicate Sound(m: Memory, total: nat, start: nat, ps: Pieces) {
    exists f :: Consistent(m, total, start, f, ps)
  }

  /** A list entered at something that is not a free piece cannot be right. */
  lemma StrayStart(m: Memory, total: nat, start: nat, ps: Pieces)
    requires !(start in ps && ps[start].free)
    ensures !Sound(m, total, start, ps)
  {}

  // ----- what coalescing means -----

  /** The piece that ends where another starts. */
  lemma PieceBefore(ps: Pieces, total: nat, o: nat) returns (d: nat)
    requires Tiling(ps, total) && o in ps && o > 0
    ensures d in ps && d + ps[d].size == o
  {
    assert Covered(ps, o - 1);
    d :| Covers(ps, d, o - 1);
  }

  /** The piece that starts where another ends. */
  lemma PieceAfter(ps: Pieces, total: nat, o: nat)
    requires Tiling(ps, total) && o in ps && o + ps[o].size < total
    ensures o + ps[o].size in ps
  {
    var e := o + ps[o].size;
    assert Covered(ps, e);
    var d: nat :| Covers(ps, d, e);
  }

  lemma SameLive(ps: Pieces, qs: Pieces)
    requires Live(ps) == Live(qs)
    ensures forall o | o in ps && !ps[o].free :: o in qs && qs[o] == ps[o]
  {
    forall o | o in ps && !ps[o].free
      ensures o in qs && qs[o] == ps[o]
    {
      assert o in Live(ps) && Live(ps)[o] == ps[o].size;
      assert o in Live(qs);
    }
  }

  lemma FreePieceIsForced(ps: Pieces, qs: Pieces, total: nat, o: nat)
    requires Tiling(ps, total) && Coalesced(ps) && Tiling(qs, total) && Coalesced(qs)
    requires Live(ps) == Live(qs) && o in ps && ps[o].free
    ensures o in qs && qs[o].free && qs[o].size <= ps[o].size
  {
    SameLive(ps, qs);
    SameLive(qs, ps);
    assert Covered(qs, o);
    var c: nat :| Covers(qs, c, o);
    assert qs[c].free;
    if c < o {
      var d := PieceBefore(ps, total, o);
      assert false;
    }
    if qs[o].size > ps[o].size {
      PieceAfter(ps, total, o);
      assert false;
    }
  }

  /** The free pieces are determined by the allocated ones: the arena looks the same after any two
      histories that leave the same blocks allocated. */
  lemma LiveDeterminesPieces(ps: Pieces, qs: Pieces, total: nat)
    requires Tiling(ps, total) && Coalesced(ps) && Tiling(qs, total) && Coalesced(qs)
    requires Live(ps) == Live(qs)
    ensures ps == qs
  {
    SameLive(ps, qs);
    SameLive(qs, ps);
    forall o | o in ps
      ensures o in qs && qs[o] == ps[o]
    {
      if ps[o].free {
        FreePieceIsForced(ps, qs, total, o);
        FreePieceIsForced(qs, ps, total, o);
      }
    }
    forall o | o in qs
      ensures o in ps
    {
      if qs[o].free {
        FreePieceIsForced(qs, ps, total, o);
      }
    }
  }

  lemma AllFreeIsOnePiece(ps: Pieces, total: nat)
    requires Tiling(ps, total) && Coalesced(ps) && Live(ps) == map[] && total > 0
    ensures ps == map[0 := Piece(total, true)]
  {
    var qs := map[0 := Piece(total, true)];
    forall x: nat | x < total
      ensures Covered(qs, x)
    {
      assert Covers(qs, 0, x);
    }
    LiveDeterminesPieces(ps, qs, total);
  }

  // ----- allocation -----

  /** mallocCust's count of header units; the sum is taken in an unsigned 64-bit word. */
  function Units(nbytes: nat): (r: nat)
    ensures r > 0
  {
    (nbytes + HEADER_SIZE - 1) % 0x1_0000_0000_0000_0000 / HEADER_SIZE + 1
  }

  /** Position d of a walk round the list that starts at position s. */
  function Walk(s: nat, d: nat, n: nat): nat
    requires s < n && d <= n
  {
    if s + d < n then s + d else s + d - n
  }

  /** An exact fit becomes the allocated piece; a larger piece gives up its tail. */
  function Allotted(ps: Pieces, c: nat, units: nat): Pieces
    requires c in ps && units <= ps[c].size
  {
    if ps[c].size == units then ps[c := Piece(units, false)]
    else ps[c := Piece(ps[c].size - units, true)][c + ps[c].size - units := Piece(units, false)]
  }

  function AllotStart(ps: Pieces, c: nat, units: nat): nat
    requires c in ps && units <= ps[c].size
  {
    c + ps[c].size - units
  }

  lemma AllotKeepsTiling(ps: Pieces, total: nat, c: nat, units: nat)
    requires Tiling(ps, total) && Coalesced(ps) && c in ps && ps[c].free && 0 < units <= ps[c].size
    ensures Tiling(Allotted(ps, c, units), total)
    ensures Coalesced(Allotted(ps, c, units))
  {
    hide Coalesced;
    var qs := Allotted(ps, c, units);
    var r := AllotStart(ps, c, units);
    assert c != r ==> r !in ps;
    AllotDisjoint(ps, c, units);
    AllotCoalesced(ps, c, units);
    forall x: nat | x < total
      ensures Covered(qs, x)
    {
      assert Covered(ps, x);
      var d: nat :| Covers(ps, d, x);
      assert Covers(qs, if d != c then d else if x < r then c else r, x);
    }
  }

  lemma AllotDisjoint(ps: Pieces, c: nat, units: nat)
    requires Disjoint(ps) && c in ps && 0 < units <= ps[c].size
    ensures Disjoint(Allotted(ps, c, units))
  {}

  lemma AllotCoalesced(ps: Pieces, c: nat, units: nat)
    requires Disjoint(ps) && Coalesced(ps) && c in ps && ps[c].free && 0 < units <= ps[c].size
    ensures Coalesced(Allotted(ps, c, units))
  {}

  lemma AllotLive(ps: Pieces, c: nat, units: nat)
    requires Disjoint(ps) && c in ps && ps[c].free && 0 < units <= ps[c].size
    ensures Live(Allotted(ps, c, units)) == Live(ps)[AllotStart(ps, c, units) := units]
    ensures AllotStart(ps, c, units) !in Live(ps)
  {}

  lemma RingAt(m: Memory, f: seq<nat>, i: nat)
    requires Ring(m, f) && i < |f|
    ensures PointsTo(m, f[i], f[Next(i, |f|)])
  {}

  lemma CutIndex(f: seq<nat>, k: nat, i: nat)
    requires k < |f| && i < |f| - 1
    ensures (f[..k] + f[k + 1..])[i] == f[if i < k then i else i + 1]
  {}

  /** Unlinking position k of a list of several leaves a list of the others. */
  lemma UnlinkRing(m: Memory, f: seq<nat>, p: nat, k: nat)
    requires Ring(m, f) && p < |f| && k == Next(p, |f|) && |f| > 1
    ensures f[p] in m && f[k] in m
    ensures Ring(m[f[p] := m[f[p]].(ptr := m[f[k]].ptr)], f[..k] + f[k + 1..])
  {
    var n := |f|;
    var g := f[..k] + f[k + 1..];
    RingAt(m, f, p);
    RingAt(m, f, k);
    CutMembers(f, k);
    var m' := m[f[p] := m[f[p]].(ptr := m[f[k]].ptr)];
    assert forall i | 0 <= i < n && i != p :: f[i] != f[p];
    forall i: nat, j: nat | i < |g| && j == Next(i, |g|)
      ensures PointsTo(m', g[i], g[j])
    {
      hide Ring, Ascending;
      var i' := if i < k then i else i + 1;
      CutIndex(f, k, i);
      CutIndex(f, k, j);
      RingAt(m, f, i');
    }
  }

  /** The ring depends only on the link fields. */
  lemma RingElsewhere(m: Memory, m': Memory, f: seq<nat>)
    requires Ring(m, f)
    requires forall o | o in f :: o in m && o in m' && m'[o].ptr == m[o].ptr
    ensures Ring(m', f)
  {
    forall i: nat, j: nat | i < |f| && j == Next(i, |f|)
      ensures PointsTo(m', f[i], f[j])
    {
      assert PointsTo(m, f[i], f[j]);
    }
  }

  lemma CutMembers(f: seq<nat>, k: nat)
    requires Ascending(f) && k < |f|
    ensures Ascending(f[..k] + f[k + 1..])
    ensures forall o: nat :: o in f[..k] + f[k + 1..] <==> o in f && o != f[k]
  {
    var g := f[..k] + f[k + 1..];
    forall o: nat
      ensures o in g <==> o in f && o != f[k]
    {
      if o in f && o != f[k] {
        var i :| 0 <= i < |f| && f[i] == o;
        assert i < k ==> g[i] == o;
        assert i > k ==> g[i - 1] == o;
      }
    }
  }

  /** c is the first piece of at least the given size that a walk from the starting node meets. */
  ghost predicate NextFit(ps: Pieces, f: seq<nat>, start: nat, units: nat, c: nat) {
    exists s: nat, d: nat :: FitAt(ps, f, start, units, c, s, d)
  }

  ghost predicate FitAt(ps: Pieces, f: seq<nat>, start: nat, units: nat, c: nat, s: nat, d: nat) {
    && s < |f| && f[s] == start && 1 <= d <= |f| && c == f[Walk(s, d, |f|)]
    && Holds(ps, c, units)
    && (forall e: nat | 1 <= e < d :: !Holds(ps, f[Walk(s, e, |f|)], units))
  }

  ghost predicate Holds(ps: Pieces, o: nat, units: nat) {
    o in ps && ps[o].size >= units
  }

  /** Some free piece is large enough. */
  ghost predicate Fits(ps: Pieces, units: nat) {
    exists o :: o in ps && ps[o].free && Holds(ps, o, units)
  }

  /** The case in which an exact fit stays linked: the list has no other node. */
  ghost predicate SoleExactFit(ps: Pieces, f: seq<nat>, units: nat) {
    |f| == 1 && f[0] in ps && ps[f[0]].size == units
  }

  lemma WalkSeesAll(f: seq<nat>, s: nat, o: nat) returns (d: nat)
    requires s < |f| && o in f
    ensures 1 <= d <= |f| && f[Walk(s, d, |f|)] == o
  {
    var i :| 0 <= i < |f| && f[i] == o;
    d := if i > s then i - s else i - s + |f|;
  }

  /** a comes right before c on the list. */
  ghost predicate Precedes(f: seq<nat>, a: nat, c: nat) {
    exists i: nat :: i < |f| && f[i] == a && f[Next(i, |f|)] == c
  }

  /** The block at r is the last `units` of the free piece at c; what was before it there stays free, and
      nothing else has changed. */
  ghost predicate CutFrom(ps: Pieces, qs: Pieces, c: nat, r: nat, units: nat) {
    && FreeAt(ps, c) && c <= r && r + units == c + ps[c].size
    && r in qs && qs[r] == Piece(units, false)
    && (c < r ==> c in qs && qs[c] == Piece(r - c, true))
    && qs.Keys == ps.Keys + {r} && forall o | o in ps && o != c :: qs[o] == ps[o]
  }

  lemma EndCut(ps: Pieces, total: nat, f: seq<nat>, c: nat, units: nat)
    requires Tiling(ps, total) && Filed(ps, f) && c in f && Holds(ps, c, units) && units > 0
    ensures CutFrom(ps, Allotted(ps, c, units), c, AllotStart(ps, c, units), units)
  {
    assert AllotStart(ps, c, units) > c ==> AllotStart(ps, c, units) !in ps;
  }

  /** The block at r lies in a free piece, with at least `units` before it there. */
  ghost predicate Splits(ps: Pieces, r: nat, units: nat) {
    exists c: nat :: FreeAt(ps, c) && c + units <= r < c + ps[c].size
  }

  lemma SplitOff(ps: Pieces, qs: Pieces, total: nat, c: nat, r: nat, units: nat, units': nat)
    requires Tiling(ps, total) && CutFrom(ps, qs, c, r, units) && Splits(ps, r, units') && units > 0 && units' > 0
    ensures c + units' <= r && FreeAt(qs, c) && Holds(qs, c, units') && Fits(qs, units')
  {
    var d: nat :| FreeAt(ps, d) && d + units' <= r < d + ps[d].size;
    assert d == c;
  }

  lemma NextIsFit(ps: Pieces, f: seq<nat>, start: nat, units: nat, c: nat, c': nat)
    requires Ascending(f) && Precedes(f, start, c) && Holds(ps, c, units) && NextFit(ps, f, start, units, c')
    ensures c' == c
  {
    var i: nat :| i < |f| && f[i] == start && f[Next(i, |f|)] == c;
    var s: nat, d: nat :| FitAt(ps, f, start, units, c', s, d);
    assert s == i && f[Walk(s, 1, |f|)] == c;
  }

  lemma SplitIs(ps: Pieces, qs: Pieces, rs: Pieces, total: nat, c: nat, r: nat, r': nat, units: nat, units': nat)
    requires Tiling(ps, total) && CutFrom(ps, qs, c, r, units) && CutFrom(qs, rs, c, r', units') && c < r
    ensures r' + units' == r
  {}

  class Allocator {
    var mem: Memory
    var startingNode: nat
    const totalUnits: nat
    ghost var free: seq<nat>
    ghost var pieces: Pieces

    ghost predicate Valid()
      reads this
    {
      Consistent(mem, totalUnits, startingNode, free, pieces)
    }

    /** The end of mallocCust: currNode is large enough and prevNode is its predecessor. */
    method Take(prevNode: nat, currNode: nat, nunits: nat, ghost i: nat, ghost k: nat) returns (p: Ptr)
      requires Consistent(mem, totalUnits, prevNode, free, pieces)
      requires i < |free| && k == Next(i, |free|) && free[i] == prevNode && free[k] == currNode
      requires nunits > 0 && Holds(pieces, currNode, nunits)
      modifies this
      ensures pieces == Allotted(old(pieces), currNode, nunits)
      ensures p == At(AllotStart(old(pieces), currNode, nunits) + 1)
      ensures startingNode == prevNode && (old(pieces)[currNode].size > nunits ==> free == old(free))
      ensures !SoleExactFit(old(pieces), old(free), nunits) ==> Valid()
      ensures SoleExactFit(old(pieces), old(free), nunits) ==> !Sound(mem, totalUnits, startingNode, pieces)
    {
      hide Consistent, Filed;
      Allotment(mem, totalUnits, free, pieces, i, k, nunits);
      var start: nat := currNode;
      ghost var n := |free|;
      ghost var sole := n == 1 && mem[currNode].size == nunits;
      if mem[currNode].size == nunits {
        mem := mem[prevNode := mem[prevNode].(ptr := mem[currNode].ptr)];
        free := if n == 1 then free else free[..k] + free[k + 1..];
      } else {
        mem := mem[currNode := mem[currNode].(size := mem[currNode].size - nunits)];
        start := start + mem[currNode].size;
        mem := mem[start := mem[start].(size := nunits)];
      }
      pieces := Allotted(pieces, currNode, nunits);
      startingNode := prevNode;
      if sole {
        StrayStart(mem, totalUnits, startingNode, pieces);
      }
      return At(start + 1);
    }

    /** The same, with the piece that is cut told in full. */
    method TakeEnd(prevNode: nat, currNode: nat, nunits: nat, ghost i: nat, ghost k: nat) returns (p: Ptr)
      requires Consistent(mem, totalUnits, prevNode, free, pieces)
      requires i < |free| && k == Next(i, |free|) && free[i] == prevNode && free[k] == currNode
      requires nunits > 0 && Holds(pieces, currNode, nunits)
      modifies this
      ensures pieces == Allotted(old(pieces), currNode, nunits)
      ensures p == At(AllotStart(old(pieces), currNode, nunits) + 1)
      ensures CutFrom(old(pieces), pieces, currNode, p.unit - 1, nunits) && Precedes(old(free), startingNode, currNode)
      ensures currNode < p.unit - 1 ==> free == old(free)
      ensures !SoleExactFit(old(pieces), old(free), nunits) ==> Valid()
      ensures SoleExactFit(old(pieces), old(free), nunits) ==> !Sound(mem, totalUnits, startingNode, pieces)
    {
      EndCut(pieces, totalUnits, free, currNode, nunits);
      hide Consistent, CutFrom, SoleExactFit;
      p := Take(prevNode, currNode, nunits, i, k);
    }

    /** mallocCust. It never answers NULL while a piece is large enough; the piece taken is the next
        one that fits, and the invariant survives unless that was an exact fit of the only node. The
        block is the end of that piece, and the next search starts behind the predecessor of the piece. */
    method Malloc(nbytes: nat) returns (p: Ptr)
      requires Valid() && nbytes < 0x1_0000_0000_0000_0000
      modifies this
      ensures p == NULL <==> nbytes == 0 || !Fits(old(pieces), Units(nbytes))
      ensures p == NULL ==> pieces == old(pieces) && startingNode == old(startingNode) && mem == old(mem) && Valid()
      ensures p.At? ==>
                exists c: nat :: NextFit(old(pieces), old(free), old(startingNode), Units(nbytes), c) &&
                  c in old(pieces) && pieces == Allotted(old(pieces), c, Units(nbytes)) &&
                  p.unit == AllotStart(old(pieces), c, Units(nbytes)) + 1 && p.unit > 0 &&
                  CutFrom(old(pieces), pieces, c, p.unit - 1, Units(nbytes)) &&
                  Precedes(old(free), startingNode, c) && (c < p.unit - 1 ==> free == old(free))
      ensures p.At? && !SoleExactFit(old(pieces), old(free), Units(nbytes)) ==> Valid()
      ensures p.At? && SoleExactFit(old(pieces), old(free), Units(nbytes)) ==>
                !Sound(mem, totalUnits, startingNode, pieces)
    {
      hide Tiling, Coalesced, Filed, Ring, Stamped, Mapped, CutFrom, NextFit, Fits, SoleExactFit, Precedes;
      if nbytes == 0 {
        return NULL;
      }
      var nunits := Units(nbytes);
      var found, prevNode, currNode, i, k := Search(nunits);
      if !found {
        return NULL;
      }
      p := TakeEnd(prevNode, currNode, nunits, i, k);
    }

    /** Two calls: if the first splits a piece and the second fits what is left of it, the second gets
        the end of that. */
    method MallocTwice(nbytes: nat, nbytes': nat) returns (p: Ptr, q: Ptr)
      requires Valid() && nbytes < 0x1_0000_0000_0000_0000 && 0 < nbytes' < 0x1_0000_0000_0000_0000
      requires !SoleExactFit(pieces, free, Units(nbytes))
      modifies this
      ensures p.At? ==>
                p.unit > 0 &&
                forall c: nat | FreeAt(old(pieces), c) && c + Units(nbytes') < p.unit <= c + old(pieces)[c].size ::
                  q == At(p.unit - Units(nbytes'))
    {
      hide Tiling, Coalesced, Filed, Ring, Stamped, Mapped, NextFit, Fits, SoleExactFit, Units, CutFrom, Precedes;
      ghost var was, list, units, units' := pieces, free, Units(nbytes), Units(nbytes');
      RingAscends(mem, free);
      p := Malloc(nbytes);
      ghost var left, start := pieces, startingNode;
      ghost var c: nat;
      ghost var split := p.At? && Splits(was, p.unit - 1, units');
      if split {
        c :| NextFit(was, list, old(startingNode), units, c) && CutFrom(was, left, c, p.unit - 1, units) &&
             Precedes(list, start, c) && (c < p.unit - 1 ==> free == list);
        SplitOff(was, left, totalUnits, c, p.unit - 1, units, units');
      }
      q := Malloc(nbytes');
      if split {
        ghost var c' :| NextFit(left, list, start, units', c') && CutFrom(left, pieces, c', q.unit - 1, units');
        NextIsFit(left, list, start, units', c, c');
        SplitIs(was, left, pieces, totalUnits, c, p.unit - 1, q.unit - 1, units, units');
      }
    }

    /** The search loop of mallocCust: one trip round the list, starting behind startingNode. */
    method Search(nunits: nat) returns (found: bool, prevNode: nat, currNode: nat, ghost i: nat, ghost k: nat)
      requires Valid()
      ensures found <==> Fits(pieces, nunits)
      ensures found ==> NextFit(pieces, free, startingNode, nunits, currNode) && Holds(pieces, currNode, nunits)
      ensures found ==> i < |free| && k == Next(i, |free|) && free[i] == prevNode && free[k] == currNode
    {
      hide Ring, Tiling, Coalesced, Mapped, Stamped, Filed;
      prevNode := startingNode;
      ghost var n := |free|;
      ghost var s: nat :| s < n && free[s] == startingNode;
      i, k := s, Next(s, n);
      RingAt(mem, free, s);
      currNode := mem[prevNode].ptr;
      ghost var d: nat := 1;
      while true
        invariant 1 <= d <= n
        invariant i == Walk(s, d - 1, n) && k == Walk(s, d, n)
        invariant prevNode == free[i] && currNode == free[k]
        invariant forall e: nat | 1 <= e < d :: !Holds(pieces, free[Walk(s, e, n)], nunits)
        decreases n - d
      {
        StampedAt(mem, pieces, free, currNode);
        if mem[currNode].size >= nunits {
          assert FitAt(pieces, free, startingNode, nunits, currNode, s, d);
          return true, prevNode, currNode, i, k;
        }
        WalkHome(mem, free, s, d);
        if currNode == startingNode {
          AllTooSmall(pieces, free, s, nunits);
          return false, prevNode, currNode, i, k;
        }
        RingAt(mem, free, k);
        prevNode := currNode;
        currNode := mem[currNode].ptr;
        d := d + 1;
        i, k := k, Next(k, n);
      }
    }

    /** memInit: one free piece. The unit count is rounded up and then one more is added, so the
        arena reaches past the memory it was given. */
    constructor (memSize: nat, contents: Memory)
      requires (memSize + HEADER_SIZE - 1) / HEADER_SIZE + 1 < 0x1_0000_0000
      requires Mapped(contents, (memSize + HEADER_SIZE - 1) / HEADER_SIZE + 1)
      ensures Valid() && free == [0] && pieces == map[0 := Piece(totalUnits, true)]
      ensures totalUnits == (memSize + HEADER_SIZE - 1) / HEADER_SIZE + 1
    {
      totalUnits := (memSize + HEADER_SIZE - 1) / HEADER_SIZE + 1;
      mem := contents[0 := Header(0, (memSize + HEADER_SIZE - 1) / HEADER_SIZE + 1)];
      startingNode := 0;
      free := [0];
      pieces := map[0 := Piece((memSize + HEADER_SIZE - 1) / HEADER_SIZE + 1, true)];
      new;
      OnePiece(totalUnits);
    }

    /** The search loop of freeCust: where in the circle the block belongs, unless it is on the list
        already. */
    method Locate(freeBlock: nat) returns (listed: bool, currNode: nat, isExternal: bool, ghost i: nat)
      requires Valid()
      ensures listed <==> freeBlock in free
      ensures !listed ==> Between(free, i, freeBlock) && currNode == free[i] && currNode in mem
      ensures !listed ==> (isExternal <==> i + 1 == |free|)
    {
      hide Tiling, Coalesced, Between, Stamped, Filed;
      RingAscends(mem, free);
      ghost var n := |free|;
      ghost var target := Destination(free, freeBlock);
      i :| i < n && free[i] == startingNode;
      RingAt(mem, free, i);
      currNode := startingNode;
      isExternal := false;
      while !(freeBlock > currNode && freeBlock < mem[currNode].ptr)
        invariant i < n && currNode == free[i] && PointsTo(mem, currNode, free[Next(i, n)])
        invariant !isExternal
        decreases if target >= i then target - i else target - i + n
      {
        if freeBlock == currNode || freeBlock == mem[currNode].ptr {
          return true, currNode, isExternal, i;
        }
        HereOrNot(free, i, target, freeBlock);
        if currNode >= mem[currNode].ptr && (freeBlock > currNode || freeBlock < mem[currNode].ptr) {
          isExternal := true;
          break;
        }
        currNode := mem[currNode].ptr;
        i := Next(i, n);
        RingAt(mem, free, i);
      }
      HereOrNot(free, i, target, freeBlock);
      listed := false;
    }

    /** freeCust, on NULL, a pointer outside the arena, the pointer of an allocated block, or one into a
        free piece that is not just past the last start on the list: all but those of allocated blocks
        are refused, so a second free does nothing while the piece is still there. The invariant
        survives unless the block was the left neighbour of the only node. The next search starts behind
        the free piece before the block. */
    method Free(freeMem: Ptr)
      requires Valid()
      requires freeMem.At? && 0 < freeMem.unit <= totalUnits * HEADER_SIZE ==>
                 freeMem.unit - 1 in Live(pieces) || InFree(pieces, free, freeMem.unit - 1)
      modifies this
      ensures !IsLive(old(pieces), freeMem) ==>
                Valid() && mem == old(mem) && startingNode == old(startingNode) && pieces == old(pieces)
      ensures IsLive(old(pieces), freeMem) ==> Live(pieces) == Live(old(pieces)) - {freeMem.unit - 1}
      ensures IsLive(old(pieces), freeMem) ==> ComesBefore(old(free), startingNode, freeMem.unit - 1)
      ensures IsLive(old(pieces), freeMem) && !SoleRightNeighbour(old(pieces), old(free), freeMem.unit - 1) ==> Valid()
      ensures IsLive(old(pieces), freeMem) && SoleRightNeighbour(old(pieces), old(free), freeMem.unit - 1) ==>
                Tiling(pieces, totalUnits) && Coalesced(pieces) &&
                !Sound(mem, totalUnits, startingNode, pieces)
    {
      LiveInside(pieces, totalUnits);
      if freeMem == NULL || freeMem.unit == 0 || freeMem.unit - 1 >= totalUnits * HEADER_SIZE {
        return;
      }
      var freeBlock := freeMem.unit - 1;
      FreedInMemory(mem, totalUnits, startingNode, free, pieces, freeBlock);
      var listed, currNode, isExternal, i := Locate(freeBlock);
      if listed {
        return;
      }
      AbsurdOrNot(mem, totalUnits, startingNode, free, pieces, i, freeBlock);
      hide Consistent, Live, InFree, Between;
      if !isExternal &&
         (currNode + mem[currNode].size > freeBlock || freeBlock + mem[freeBlock].size > mem[currNode].ptr)
      {
        return;
      }
      BetweenComesBefore(free, i, freeBlock);
      hide ComesBefore;
      PutBack(freeBlock, currNode, i);
    }

    /** The joining steps of freeCust, once the block's predecessor is known. */
    method PutBack(freeBlock: nat, currNode: nat, ghost i: nat)
      requires Valid() && freeBlock in Live(pieces) && Between(free, i, freeBlock) && currNode == free[i]
      modifies this
      ensures Live(pieces) == Live(old(pieces)) - {freeBlock} && startingNode == currNode
      ensures !SoleRightNeighbour(old(pieces), old(free), freeBlock) ==> Valid()
      ensures SoleRightNeighbour(old(pieces), old(free), freeBlock) ==>
                Tiling(pieces, totalUnits) && Coalesced(pieces) &&
                !Sound(mem, totalUnits, startingNode, pieces)
    {
      hide Consistent, Tiling, Coalesced, Between, ReleasedMemory, Released, ReleasedList, Live;
      ghost var sole := SoleRightNeighbour(pieces, free, freeBlock);
      ghost var was, start := mem, startingNode;
      InMemory(mem, totalUnits, startingNode, free, pieces, i, freeBlock);
      Splice(freeBlock, currNode);
      startingNode := currNode;
      if sole {
        SoleRelease(was, totalUnits, start, free, pieces, i, freeBlock);
        pieces := Fuse(pieces[freeBlock := Piece(pieces[freeBlock].size, true)], freeBlock, currNode);
        StrayStart(mem, totalUnits, startingNode, pieces);
      } else {
        ReleaseIsConsistent(was, totalUnits, start, free, pieces, i, freeBlock);
        ghost var right := freeBlock + pieces[freeBlock].size == was[currNode].ptr;
        ghost var left := currNode + pieces[currNode].size == freeBlock;
        free := ReleasedList(free, i, freeBlock, right, left);
        pieces := Released(pieces, freeBlock, right, left, currNode);
      }
    }

    /** The memory writes of freeCust: join or link to the right, then join or link to the left. */
    method Splice(freeBlock: nat, currNode: nat)
      requires freeBlock in mem && currNode in mem && mem[currNode].ptr in mem && freeBlock != currNode
      modifies `mem
      ensures mem == ReleasedMemory(old(mem), currNode, freeBlock)
    {
      if freeBlock + mem[freeBlock].size == mem[currNode].ptr {
        mem := mem[freeBlock := Header(mem[mem[currNode].ptr].ptr, mem[freeBlock].size + mem[mem[currNode].ptr].size)];
      } else {
        mem := mem[freeBlock := mem[freeBlock].(ptr := mem[currNode].ptr)];
      }
      if currNode + mem[currNode].size == freeBlock {
        mem := mem[currNode := Header(mem[freeBlock].ptr, mem[currNode].size + mem[freeBlock].size)];
      } else {
        mem := mem[currNode := mem[currNode].(ptr := freeBlock)];
      }
    }

    /** Freeing every allocated block, in any order that avoids the corner, leaves the arena as memInit
        made it. */
    method FreeAll(blocks: seq<nat>)
      requires Valid() && OffCorner(pieces, blocks, totalUnits)
      requires NoRepeats(blocks) && forall o: nat :: o in Live(pieces) <==> o in blocks
      modifies this
      ensures Valid() && pieces == map[0 := Piece(totalUnits, true)]
    {
      var i := 0;
      while i < |blocks|
        invariant i <= |blocks| && Valid() && OffCorner(pieces, blocks[i..], totalUnits)
        invariant forall o: nat :: o in Live(pieces) <==> o in blocks[i..]
      {
        hide Valid, Live, OffCorner;
        DropFirst(blocks, i);
        FreeNext(blocks[i], blocks[i + 1..]);
        i := i + 1;
      }
      assert Live(pieces) == map[];
      AllFreeIsOnePiece(pieces, totalUnits);
    }

    method FreeNext(block: nat, ghost rest: seq<nat>)
      requires Valid() && block in Live(pieces) && OffCorner(pieces, [block] + rest, totalUnits)
      modifies this
      ensures Valid() && OffCorner(pieces, rest, totalUnits) && Live(pieces) == Live(old(pieces)) - {block}
    {
      CornerIs(mem, totalUnits, startingNode, free, pieces, block);
      assert ([block] + rest)[0] == block && ([block] + rest)[1..] == rest;
      hide Live, SoleRightNeighbour, Corner, InFree, Tiling, Coalesced, Stamped, Filed, Ring, Mapped;
      Free(At(block + 1));
    }

    /** Freeing in any other order comes to a block, at position k, after which the allocator is lost. */
    method FreeIntoCorner(blocks: seq<nat>, k: nat)
      requires Valid() && ComesToCorner(pieces, blocks, totalUnits, k)
      requires NoRepeats(blocks) && forall i: nat | i < |blocks| :: blocks[i] in Live(pieces)
      modifies this
      ensures !Sound(mem, totalUnits, startingNode, pieces)
    {
      hide Valid, Live, ComesToCorner, NoRepeats, Sound;
      var i := 0;
      assert blocks[0..] == blocks;
      FirstOfThem(pieces, blocks, totalUnits, k);
      while i < k
        invariant i <= k && i < |blocks| && Valid() && ComesToCorner(pieces, blocks[i..], totalUnits, k - i)
        invariant NoRepeats(blocks[i..]) && forall j: nat | j < |blocks[i..]| :: blocks[i..][j] in Live(pieces)
      {
        FreeTowards(blocks[i], blocks[i..], k - i);
        assert blocks[i..][1..] == blocks[i + 1..];
        i := i + 1;
        FirstOfThem(pieces, blocks[i..], totalUnits, k - i);
      }
      FirstOfThem(pieces, blocks[i..], totalUnits, 0);
      assert blocks[i..][0] == blocks[i];
      FreeAtCorner(blocks[i]);
    }

    method FreeTowards(block: nat, ghost blocks: seq<nat>, ghost k: nat)
      requires Valid() && ComesToCorner(pieces, blocks, totalUnits, k) && k > 0 && block == blocks[0]
      requires NoRepeats(blocks) && forall i: nat | i < |blocks| :: blocks[i] in Live(pieces)
      modifies this
      ensures Valid() && ComesToCorner(pieces, blocks[1..], totalUnits, k - 1)
      ensures NoRepeats(blocks[1..]) && forall i: nat | i < |blocks[1..]| :: blocks[1..][i] in Live(pieces)
    {
      CornerIs(mem, totalUnits, startingNode, free, pieces, block);
      ghost var was := pieces;
      hide Live, SoleRightNeighbour, Corner, InFree, Tiling, Coalesced, Stamped, Filed, Ring, Mapped, NoRepeats;
      Free(At(block + 1));
      StillLive(was, pieces, blocks);
    }

    /** freeCust off the corner, where the pieces that must come of it are known. */
    method FreeTo(block: nat, ghost qs: Pieces)
      requires Valid() && block in Live(pieces) && !Corner(pieces, block)
      requires Tiling(qs, totalUnits) && Coalesced(qs) && Live(qs) == Live(pieces) - {block}
      modifies this
      ensures Valid() && pieces == qs
    {
      CornerIs(mem, totalUnits, startingNode, free, pieces, block);
      hide Live, SoleRightNeighbour, Corner, InFree, Tiling, Coalesced, Stamped, Filed, Ring, Mapped;
      Free(At(block + 1));
      LiveDeterminesPieces(pieces, qs, totalUnits);
    }

    /** freeCust at the corner. */
    method FreeAtCorner(block: nat)
      requires Valid() && block in Live(pieces) && Corner(pieces, block)
      modifies this
      ensures !Sound(mem, totalUnits, startingNode, pieces)
    {
      CornerIs(mem, totalUnits, startingNode, free, pieces, block);
      hide Live, SoleRightNeighbour, Corner, InFree, Consistent;
      Free(At(block + 1));
    }

    /** mallocCust where only one free piece is large enough. */
    method TakeOnly(nbytes: nat, ghost c: nat) returns (p: Ptr)
      requires Valid() && 0 < nbytes < 0x1_0000_0000_0000_0000 && OnlyFit(pieces, Units(nbytes), c)
      modifies this
      ensures Valid() && pieces == Allotted(old(pieces), c, Units(nbytes))
      ensures p == At(AllotStart(old(pieces), c, Units(nbytes)) + 1)
    {
      OnlyFits(pieces, free, startingNode, Units(nbytes), c);
      hide Consistent, NextFit, Units, Holds, Allotted, AllotStart, SoleExactFit;
      p := Malloc(nbytes);
    }

    /** The owner of an allocated block writes inside it, past the header. */
    method OwnerWrites(block: nat, at: nat, junk: Header)
      requires Valid() && block in Live(pieces) && block < at < block + pieces[block].size
      modifies `mem
      ensures Valid()
    {
      assert at !in pieces;
      mem := mem[at := junk];
      RingElsewhere(old(mem), mem, free);
    }
  }

  lemma WalkHome(m: Memory, f: seq<nat>, s: nat, d: nat)
    requires Ring(m, f) && s < |f| && 1 <= d <= |f|
    ensures f[Walk(s, d, |f|)] == f[s] <==> d == |f|
  {}

  /** Taking `units` from the piece at position k, whose predecessor on the list is position p: the
      invariant holds afterwards except for an exact fit of a sole node, where nothing is unlinked
      and the list no longer holds just the free pieces. */
  lemma Allotment(m: Memory, total: nat, f: seq<nat>, ps: Pieces, p: nat, k: nat, units: nat)
    requires p < |f| && k == Next(p, |f|) && units > 0
    requires Consistent(m, total, f[p], f, ps) && Holds(ps, f[k], units)
    ensures f[p] in m && f[k] in m && ps[f[k]].free && m[f[k]].size == ps[f[k]].size
    ensures AllotStart(ps, f[k], units) in m
    ensures ps[f[k]].size == units && |f| > 1 ==>
              Consistent(m[f[p] := m[f[p]].(ptr := m[f[k]].ptr)], total, f[p], f[..k] + f[k + 1..],
                         Allotted(ps, f[k], units))
    ensures ps[f[k]].size > units ==>
              var m1 := m[f[k] := m[f[k]].(size := m[f[k]].size - units)];
              var r := AllotStart(ps, f[k], units);
              Consistent(m1[r := m1[r].(size := units)], total, f[p], f, Allotted(ps, f[k], units))
  {
    hide Tiling, Coalesced, Ring;
    StampedAt(m, ps, f, f[k]);
    StampedAt(m, ps, f, f[p]);
    InArena(ps, total, f[k]);
    AllotKeepsTiling(ps, total, f[k], units);
    if ps[f[k]].size > units {
      TailCarved(m, total, f, ps, f[k], units);
    } else if |f| > 1 {
      UnlinkRing(m, f, p, k);
      UnlinkFiled(m, f, ps, p, k, units);
    }
  }

  lemma InArena(ps: Pieces, total: nat, c: nat)
    requires Tiling(ps, total) && c in ps
    ensures c + ps[c].size <= total
  {}

  lemma UnlinkFiled(m: Memory, f: seq<nat>, ps: Pieces, p: nat, k: nat, units: nat)
    requires p < |f| && k == Next(p, |f|) && |f| > 1
    requires Filed(ps, f) && Stamped(m, ps) && Ring(m, f) && f[k] in ps && ps[f[k]].size == units
    ensures f[p] in m && f[k] in m
    ensures Filed(Allotted(ps, f[k], units), f[..k] + f[k + 1..])
    ensures Stamped(m[f[p] := m[f[p]].(ptr := m[f[k]].ptr)], Allotted(ps, f[k], units))
    ensures f[p] in f[..k] + f[k + 1..]
  {
    hide Ring;
    StampedAt(m, ps, f, f[k]);
    StampedAt(m, ps, f, f[p]);
    RingAscends(m, f);
    CutMembers(f, k);
    assert f[p] != f[k];
  }

  lemma RingAscends(m: Memory, f: seq<nat>)
    requires Ring(m, f)
    ensures Ascending(f)
  {}

  lemma TailCarved(m: Memory, total: nat, f: seq<nat>, ps: Pieces, c: nat, units: nat)
    requires Mapped(m, total) && Stamped(m, ps) && Filed(ps, f) && Ring(m, f) && Tiling(ps, total)
    requires c in ps && ps[c].free && 0 < units < ps[c].size
    ensures c in m && m[c].size >= units && AllotStart(ps, c, units) in m
    ensures var m1 := m[c := m[c].(size := m[c].size - units)];
            var r := AllotStart(ps, c, units);
            var m2 := m1[r := m1[r].(size := units)];
            Mapped(m2, total) && Stamped(m2, Allotted(ps, c, units)) &&
            Filed(Allotted(ps, c, units), f) && Ring(m2, f)
  {
    InArena(ps, total, c);
    var m1 := m[c := m[c].(size := m[c].size - units)];
    var r := AllotStart(ps, c, units);
    assert r !in ps;
    RingElsewhere(m, m1[r := m1[r].(size := units)], f);
  }

  lemma StampedAt(m: Memory, ps: Pieces, f: seq<nat>, o: nat)
    requires Stamped(m, ps) && Filed(ps, f) && o in f
    ensures o in m && o in ps && ps[o].free && m[o].size == ps[o].size
  {}

  lemma AllTooSmall(ps: Pieces, f: seq<nat>, s: nat, units: nat)
    requires Filed(ps, f) && s < |f|
    requires forall e: nat | 1 <= e <= |f| :: !Holds(ps, f[Walk(s, e, |f|)], units)
    ensures !Fits(ps, units)
  {
    forall o | o in ps && ps[o].free
      ensures !Holds(ps, o, units)
    {
      var e := WalkSeesAll(f, s, o);
    }
  }

  // ----- release -----

  /** Two pieces that meet become one free piece. */
  function Fuse(ps: Pieces, a: nat, b: nat): Pieces
    requires a in ps && b in ps
  {
    (ps - {b})[a := Piece(ps[a].size + ps[b].size, true)]
  }

  /** Only the piece at o may be free next to another free piece. */
  ghost predicate CoalescedBut(ps: Pieces, o: nat) {
    forall a, b | a in ps && b in ps && ps[a].free && ps[b].free && a + ps[a].size == b :: a == o || b == o
  }

  lemma FuseKeepsTiling(ps: Pieces, total: nat, a: nat, b: nat)
    requires Tiling(ps, total) && a in ps && b in ps && a + ps[a].size == b
    ensures Tiling(Fuse(ps, a, b), total)
  {
    var qs := Fuse(ps, a, b);
    FuseDisjoint(ps, a, b);
    forall x: nat | x < total
      ensures Covered(qs, x)
    {
      assert Covered(ps, x);
      var d: nat :| Covers(ps, d, x);
      assert Covers(qs, if d == b then a else d, x);
    }
  }

  lemma FuseDisjoint(ps: Pieces, a: nat, b: nat)
    requires Disjoint(ps) && a in ps && b in ps && a + ps[a].size == b && ps[a].size > 0
    ensures Disjoint(Fuse(ps, a, b))
  {}

  lemma FreeingKeepsTiling(ps: Pieces, total: nat, o: nat)
    requires Tiling(ps, total) && Coalesced(ps) && o in ps
    ensures Tiling(ps[o := Piece(ps[o].size, true)], total)
    ensures CoalescedBut(ps[o := Piece(ps[o].size, true)], o)
  {
    var qs := ps[o := Piece(ps[o].size, true)];
    forall x: nat | x < total
      ensures Covered(qs, x)
    {
      assert Covered(ps, x);
      var d: nat :| Covers(ps, d, x);
      assert Covers(qs, d, x);
    }
  }

  /** What freeCust makes of the pieces: the block is free, joined with the free piece after it and
      the free piece before it, if there are such. */
  function Released(ps: Pieces, o: nat, joinRight: bool, joinLeft: bool, c: nat): Pieces
    requires o in ps && c in ps && o != c
    requires joinRight ==> o + ps[o].size in ps && o + ps[o].size != c
  {
    var e := o + ps[o].size;
    var p1 := ps[o := Piece(ps[o].size, true)];
    var p2 := if joinRight && e != o then Fuse(p1, o, e) else p1;
    if joinLeft then Fuse(p2, c, o) else p2
  }

  /** Nothing free follows the piece at o, and it is the only one with a free piece before it. */
  ghost predicate NothingAfter(ps: Pieces, o: nat) {
    FreeAt(ps, o) && !FreeAt(ps, o + ps[o].size) &&
    forall a, b | a in ps && b in ps && ps[a].free && ps[b].free && a + ps[a].size == b :: b == o
  }

  lemma AfterJoiningRight(ps: Pieces, total: nat, o: nat)
    requires Tiling(ps, total) && CoalescedBut(ps, o) && FreeAt(ps, o) && FreeAt(ps, o + ps[o].size)
    ensures Tiling(Fuse(ps, o, o + ps[o].size), total)
    ensures NothingAfter(Fuse(ps, o, o + ps[o].size), o)
  {
    hide Covered;
    FuseKeepsTiling(ps, total, o, o + ps[o].size);
  }

  lemma WithoutJoiningRight(ps: Pieces, total: nat, o: nat)
    requires Tiling(ps, total) && CoalescedBut(ps, o) && FreeAt(ps, o) && !FreeAt(ps, o + ps[o].size)
    ensures NothingAfter(ps, o)
  {}

  lemma AfterJoiningLeft(ps: Pieces, total: nat, o: nat, c: nat)
    requires Tiling(ps, total) && NothingAfter(ps, o) && FreeAt(ps, c) && c + ps[c].size == o
    ensures Tiling(Fuse(ps, c, o), total)
    ensures Coalesced(Fuse(ps, c, o))
  {
    hide Covered;
    FuseKeepsTiling(ps, total, c, o);
  }

  lemma WithoutJoiningLeft(ps: Pieces, total: nat, o: nat)
    requires Tiling(ps, total) && NothingAfter(ps, o)
    requires forall a | a in ps && ps[a].free :: a + ps[a].size != o
    ensures Coalesced(ps)
  {}

  lemma ReleasedIsCoalesced(ps: Pieces, total: nat, o: nat, joinRight: bool, joinLeft: bool, c: nat)
    requires Tiling(ps, total) && Coalesced(ps) && o in ps && !ps[o].free
    requires FreeAt(ps, c) && (joinRight ==> o + ps[o].size != c)
    requires joinRight <==> FreeAt(ps, o + ps[o].size)
    requires joinLeft <==> c + ps[c].size == o
    requires forall a | a in ps && ps[a].free && a + ps[a].size == o :: a == c
    ensures Tiling(Released(ps, o, joinRight, joinLeft, c), total)
    ensures Coalesced(Released(ps, o, joinRight, joinLeft, c))
  {
    PieceSize(ps, total, o);
    hide Tiling, Coalesced, NothingAfter;
    var p2 := OpenedRight(ps, o);
    OpenedRightIs(ps, total, o);
    if joinLeft {
      AfterJoiningLeft(p2, total, o, c);
    } else {
      WithoutJoiningLeft(p2, total, o);
    }
  }

  /** The block is free, and joined with the free piece after it. */
  function OpenedRight(ps: Pieces, o: nat): Pieces
    requires o in ps
  {
    var e, p1 := o + ps[o].size, ps[o := Piece(ps[o].size, true)];
    if e in ps && ps[e].free && e != o then Fuse(p1, o, e) else p1
  }

  lemma OpenedRightIs(ps: Pieces, total: nat, o: nat)
    requires Tiling(ps, total) && Coalesced(ps) && o in ps && !ps[o].free && ps[o].size > 0
    ensures var p2 := OpenedRight(ps, o);
            && Tiling(p2, total) && NothingAfter(p2, o)
            && (forall a | FreeAt(p2, a) && a != o :: FreeAt(ps, a) && p2[a] == ps[a])
            && (forall a | FreeAt(ps, a) && a != o + ps[o].size :: FreeAt(p2, a) && p2[a] == ps[a])
            && FreeAt(p2, o) && p2[o].size > 0 && Live(p2) == Live(ps) - {o}
  {
    hide Tiling, Coalesced, CoalescedBut, NothingAfter;
    var e, p1 := o + ps[o].size, ps[o := Piece(ps[o].size, true)];
    FreeingKeepsTiling(ps, total, o);
    if e in ps && ps[e].free {
      AfterJoiningRight(p1, total, o);
    } else {
      WithoutJoiningRight(p1, total, o);
    }
  }

  /** There are pieces that the free of a block may leave. */
  lemma FreedPieces(ps: Pieces, total: nat, o: nat) returns (qs: Pieces)
    requires Tiling(ps, total) && Coalesced(ps) && o in Live(ps)
    ensures Tiling(qs, total) && Coalesced(qs) && Live(qs) == Live(ps) - {o}
  {
    PieceSize(ps, total, o);
    hide Tiling, Coalesced, NothingAfter, OpenedRight, Fuse;
    qs := OpenedRight(ps, o);
    OpenedRightIs(ps, total, o);
    if c: nat :| FreeAt(qs, c) && c + qs[c].size == o {
      AfterJoiningLeft(qs, total, o, c);
      FuseLive(qs, c, o);
      qs := Fuse(qs, c, o);
    } else {
      WithoutJoiningLeft(qs, total, o);
    }
    hide Live;
  }

  lemma FuseLive(ps: Pieces, a: nat, b: nat)
    requires FreeAt(ps, a) && FreeAt(ps, b)
    ensures Live(Fuse(ps, a, b)) == Live(ps)
  {}

  lemma ReleasedLive(ps: Pieces, o: nat, joinRight: bool, joinLeft: bool, c: nat)
    requires o in ps && !ps[o].free && ps[o].size > 0 && FreeAt(ps, c)
    requires joinRight ==> FreeAt(ps, o + ps[o].size) && o + ps[o].size != c
    ensures Live(Released(ps, o, joinRight, joinLeft, c)) == Live(ps) - {o}
  {}

  lemma PieceSize(ps: Pieces, total: nat, o: nat)
    requires Tiling(ps, total) && o in ps
    ensures ps[o].size > 0 && o + ps[o].size <= total
  {}

  /** x belongs on the list right after position i. */
  ghost predicate Between(f: seq<nat>, i: nat, x: nat) {
    i < |f| && if i + 1 < |f| then f[i] < x < f[i + 1] else f[i] < x || x < f[0]
  }

  /** a is the last on the list before x; if there is none, the last of all. */
  ghost predicate ComesBefore(f: seq<nat>, a: nat, x: nat) {
    a in f && if exists o :: o in f && o < x then a < x && forall o | o in f && o < x :: o <= a
              else forall o | o in f :: o <= a
  }

  lemma BetweenComesBefore(f: seq<nat>, i: nat, x: nat)
    requires Ascending(f) && Between(f, i, x) && x !in f
    ensures ComesBefore(f, f[i], x)
  {
    assert f[i] in f;
    if f[i] < x {
      assert forall o | o in f && o < x :: o <= f[i];
    } else {
      assert forall o | o in f :: f[0] <= o <= f[|f| - 1];
    }
  }

  /** The position x gets among the addresses of f. */
  function InsertAt(f: seq<nat>, i: nat, x: nat): nat
    requires i < |f|
  {
    if f[i] < x then i + 1 else 0
  }

  function Insert(f: seq<nat>, pos: nat, x: nat): seq<nat>
    requires pos <= |f|
  {
    f[..pos] + [x] + f[pos..]
  }

  lemma Position(f: seq<nat>, x: nat) returns (i: nat)
    requires Ascending(f) && f != [] && x !in f
    ensures Between(f, i, x)
  {
    if x < f[0] {
      return |f| - 1;
    }
    i := 0;
    while i + 1 < |f| && f[i + 1] < x
      invariant i < |f| && f[i] < x
    {
      i := i + 1;
    }
  }

  lemma PositionUnique(f: seq<nat>, i: nat, j: nat, x: nat)
    requires Ascending(f) && Between(f, i, x) && Between(f, j, x)
    ensures i == j
  {}

  lemma InsertIndex(f: seq<nat>, pos: nat, x: nat, k: nat)
    requires pos <= |f| && k <= |f|
    ensures Insert(f, pos, x)[k] == if k < pos then f[k] else if k == pos then x else f[k - 1]
  {}

  lemma InsertAscends(f: seq<nat>, i: nat, x: nat)
    requires Ascending(f) && Between(f, i, x)
    ensures InsertAt(f, i, x) <= |f|
    ensures Ascending(Insert(f, InsertAt(f, i, x), x))
    ensures forall o: nat :: o in Insert(f, InsertAt(f, i, x), x) <==> o in f || o == x
  {
    var pos := InsertAt(f, i, x);
    var g := Insert(f, pos, x);
    assert forall k | 0 <= k < pos :: f[k] < x;
    assert forall k | pos <= k < |f| :: x < f[k];
    assert forall o: nat :: o in g <==> o in f || o == x by { InsertMembers(f, pos, x); }
    hide Between, InsertAt, Insert;
    forall a, b | 0 <= a < b < |g|
      ensures g[a] < g[b]
    {
      InsertIndex(f, pos, x, a);
      InsertIndex(f, pos, x, b);
    }
  }

  lemma InsertMembers(f: seq<nat>, pos: nat, x: nat)
    requires pos <= |f|
    ensures forall o: nat :: o in Insert(f, pos, x) <==> o in f || o == x
  {
    assert f == f[..pos] + f[pos..];
  }

  /** Linking x in right after position i. */
  lemma InsertRing(m: Memory, m': Memory, f: seq<nat>, i: nat, x: nat)
    requires Ring(m, f) && Between(f, i, x) && x !in f
    requires forall o | o in f && o != f[i] :: o in m && o in m' && m'[o].ptr == m[o].ptr
    requires PointsTo(m', x, f[Next(i, |f|)]) && PointsTo(m', f[i], x)
    ensures InsertAt(f, i, x) <= |f| && Ring(m', Insert(f, InsertAt(f, i, x), x))
  {
    RingAscends(m, f);
    InsertAscends(f, i, x);
    var pos := InsertAt(f, i, x);
    var g := Insert(f, pos, x);
    assert forall k | 0 <= k < |f| && k != i :: f[k] in f && f[k] != f[i];
    InsertPlace(f, i, x);
    hide Ring, Ascending, Between, InsertAt, Insert;
    forall a: nat, b: nat | a < |g| && b == Next(a, |g|)
      ensures PointsTo(m', g[a], g[b])
    {
      InsertStep(m, m', f, i, x, pos, a);
    }
    RingIf(m', g);
  }

  lemma RingIf(m: Memory, f: seq<nat>)
    requires Ascending(f) && f != [] && forall a: nat, b: nat | a < |f| && b == Next(a, |f|) :: PointsTo(m, f[a], f[b])
    ensures Ring(m, f)
  {}

  lemma InsertStep(m: Memory, m': Memory, f: seq<nat>, i: nat, x: nat, pos: nat, a: nat)
    requires Ring(m, f) && i < |f| && pos <= |f| && (pos == i + 1 || (pos == 0 && i == |f| - 1)) && a <= |f|
    requires forall k | 0 <= k < |f| && k != i :: f[k] in m && f[k] in m' && m'[f[k]].ptr == m[f[k]].ptr
    requires PointsTo(m', x, f[Next(i, |f|)]) && PointsTo(m', f[i], x)
    ensures var g := Insert(f, pos, x); PointsTo(m', g[a], g[Next(a, |g|)])
  {
    var b := Next(a, |f| + 1);
    InsertIndex(f, pos, x, a);
    InsertIndex(f, pos, x, b);
    if a != pos {
      RingAt(m, f, if a < pos then a else a - 1);
    }
    assert |Insert(f, pos, x)| == |f| + 1;
    hide Ring, Insert;
  }

  /** The place of x is right after position i, or at either end after the last position. */
  lemma InsertPlace(f: seq<nat>, i: nat, x: nat)
    requires i < |f| && Between(f, i, x)
    ensures var pos := InsertAt(f, i, x);
            |Insert(f, pos, x)| == |f| + 1 && (pos == i + 1 || (pos == 0 && i == |f| - 1))
  {}

  // ----- what freeCust leaves in memory -----

  /** The header of the block once it has been joined with the free block after it, or linked to
      it. */
  function JoinedRight(m: Memory, next: nat, fb: nat): Header
    requires next in m && fb in m
  {
    if fb + m[fb].size == next then Header(m[next].ptr, m[fb].size + m[next].size)
    else m[fb].(ptr := next)
  }

  /** The header of its predecessor once it has swallowed the block, or been linked to it. */
  function JoinedLeft(m: Memory, curr: nat, fb: nat): Header
    requires curr in m && fb in m
  {
    if curr + m[curr].size == fb then Header(m[fb].ptr, m[curr].size + m[fb].size)
    else m[curr].(ptr := fb)
  }

  /** Memory after freeCust has put the block fb back behind curr. */
  function ReleasedMemory(m: Memory, curr: nat, fb: nat): Memory
    requires curr in m && fb in m && m[curr].ptr in m
  {
    var m1 := m[fb := JoinedRight(m, m[curr].ptr, fb)];
    m1[curr := JoinedLeft(m1, curr, fb)]
  }

  function Cut(f: seq<nat>, k: nat): seq<nat>
    requires k < |f|
  {
    f[..k] + f[k + 1..]
  }

  /** The list after the block x was put back right after position i. */
  function ReleasedList(f: seq<nat>, i: nat, x: nat, joinRight: bool, joinLeft: bool): seq<nat>
    requires i < |f| && (joinRight ==> InsertAt(f, i, x) < |f|)
  {
    var pos := InsertAt(f, i, x);
    var g := Insert(f, pos, x);
    var g2 := if joinRight then Cut(g, pos + 1) else g;
    if joinLeft then Cut(g2, pos) else g2
  }

  /** Memory with x linked in behind c. */
  function LinkedIn(m: Memory, c: nat, x: nat): Memory
    requires c in m && x in m
  {
    m[x := m[x].(ptr := m[c].ptr)][c := m[c].(ptr := x)]
  }

  /** Memory with b unlinked, a being its predecessor. */
  function Unlinked(m: Memory, a: nat, b: nat): Memory
    requires a in m && b in m
  {
    m[a := m[a].(ptr := m[b].ptr)]
  }

  lemma LinkStep(m: Memory, f: seq<nat>, i: nat, x: nat)
    requires Ring(m, f) && Between(f, i, x) && x in m && x !in f
    ensures f[i] in m && m[f[i]].ptr == f[Next(i, |f|)]
    ensures var pos := InsertAt(f, i, x);
            pos <= |f| && Ring(LinkedIn(m, f[i], x), Insert(f, pos, x)) && Insert(f, pos, x)[pos] == x &&
            (pos < |f| ==> Insert(f, pos, x)[pos + 1] == f[pos]) &&
            (pos > 0 ==> pos == i + 1 && Insert(f, pos, x)[i] == f[i])
  {
    var pos := InsertAt(f, i, x);
    RingAt(m, f, i);
    RingAscends(m, f);
    InsertAscends(f, i, x);
    ListInMemory(m, f);
    InsertRing(m, LinkedIn(m, f[i], x), f, i, x);
    InsertIndex(f, pos, x, pos);
    if pos < |f| {
      InsertIndex(f, pos, x, pos + 1);
    }
    InsertIndex(f, pos, x, i);
  }

  /** The pointers freeCust writes are those of linking the block in and then unlinking whatever it
      was joined with. */
  lemma ReleasedRing(m: Memory, f: seq<nat>, i: nat, x: nat)
    requires Ring(m, f) && Between(f, i, x) && x in m && x !in f && m[x].size > 0
    requires forall o | o in f :: o in m && m[o].size > 0
    requires x + m[x].size == f[Next(i, |f|)] ==> |f| > 1
    ensures f[i] in m && m[f[i]].ptr == f[Next(i, |f|)] && m[f[i]].ptr in m
    ensures var right := x + m[x].size == m[f[i]].ptr; var left := f[i] + m[f[i]].size == x;
            (right ==> InsertAt(f, i, x) < |f|) &&
            Ring(ReleasedMemory(m, f[i], x), ReleasedList(f, i, x, right, left))
  {
    var c, next := f[i], f[Next(i, |f|)];
    var pos := InsertAt(f, i, x);
    LinkStep(m, f, i, x);
    RingAscends(m, f);
    var right := x + m[x].size == next;
    var left := c + m[c].size == x;
    if right {
      JoinsForward(f, i, x);
      NextDiffers(f, i);
    }
    hide Ring, Between;
    var mA, g := LinkedIn(m, c, x), Insert(f, pos, x);
    UnlinkSteps(m, mA, f, g, i, pos, x, right, left);
  }

  lemma UnlinkSteps(m: Memory, mA: Memory, f: seq<nat>, g: seq<nat>, i: nat, pos: nat, x: nat, right: bool, left: bool)
    requires i < |f| && pos == InsertAt(f, i, x) && pos <= |f| && g == Insert(f, pos, x)
    requires f[i] in m && x in m && m[f[i]].ptr == f[Next(i, |f|)] && m[f[i]].ptr in m && f[i] != x
    requires mA == LinkedIn(m, f[i], x) && Ring(mA, g) && g[pos] == x
    requires right <==> x + m[x].size == m[f[i]].ptr
    requires left <==> f[i] + m[f[i]].size == x
    requires right ==> pos < |f| && g[pos + 1] == m[f[i]].ptr && m[f[i]].ptr != f[i] && m[f[i]].ptr != x
    requires left ==> pos == i + 1 && g[i] == f[i]
    ensures Ring(ReleasedMemory(m, f[i], x), ReleasedList(f, i, x, right, left))
  {
    assert |g| == |f| + 1;
    hide Ring, ReleasedMemory, LinkedIn, Cut, Insert, InsertAt, Next;
    UnlinkBoth(m, g, i, pos, f[i], x, right, left);
  }

  lemma UnlinkBoth(m: Memory, g: seq<nat>, i: nat, pos: nat, c: nat, x: nat, right: bool, left: bool)
    requires c in m && x in m && m[c].ptr in m && c != x && Ring(LinkedIn(m, c, x), g) && pos < |g| && g[pos] == x
    requires right <==> x + m[x].size == m[c].ptr
    requires left <==> c + m[c].size == x
    requires right ==> pos + 1 < |g| && g[pos + 1] == m[c].ptr && m[c].ptr != c && m[c].ptr != x
    requires left ==> pos == i + 1 && g[i] == c
    ensures var g2 := if right then Cut(g, pos + 1) else g;
            (left ==> pos < |g2|) && Ring(ReleasedMemory(m, c, x), if left then Cut(g2, pos) else g2)
  {
    hide Ring, Cut, ReleasedMemory;
    var mA, next := LinkedIn(m, c, x), m[c].ptr;
    SamePtrs(m, c, x, right, left);
    if right {
      UnlinkRight(mA, g, i, pos, x, next, left);
      hide LinkedIn, Unlinked;
      UnlinkLeft(Unlinked(mA, x, next), ReleasedMemory(m, c, x), Cut(g, pos + 1), i, pos, c, x, left);
    } else {
      UnlinkLeft(mA, ReleasedMemory(m, c, x), g, i, pos, c, x, left);
    }
  }

  lemma UnlinkRight(m: Memory, g: seq<nat>, i: nat, pos: nat, x: nat, next: nat, left: bool)
    requires Ring(m, g) && x in m && next in m && pos + 1 < |g| && g[pos] == x && g[pos + 1] == next
    requires left ==> pos == i + 1
    ensures var h := Cut(g, pos + 1);
            Ring(Unlinked(m, x, next), h) && |h| == |g| - 1 && h[pos] == x && (left ==> h[i] == g[i])
  {
    UnlinkRing(m, g, pos, pos + 1);
    hide Ring;
    CutIndex(g, pos + 1, pos);
    if left {
      CutIndex(g, pos + 1, i);
    }
  }

  lemma UnlinkLeft(m: Memory, m': Memory, g: seq<nat>, i: nat, pos: nat, c: nat, x: nat, left: bool)
    requires Ring(m, g) && c in m && x in m
    requires left ==> pos == i + 1 && pos < |g| && g[i] == c && g[pos] == x
    requires var mC := if left then Unlinked(m, c, x) else m;
             forall o | o in mC :: o in m' && m'[o].ptr == mC[o].ptr
    ensures Ring(m', if left then Cut(g, pos) else g)
  {
    if left {
      UnlinkRing(m, g, i, pos);
      var mC, g3 := Unlinked(m, c, x), Cut(g, pos);
      ListInMemory(mC, g3);
      hide Ring;
      RingElsewhere(mC, m', g3);
    } else {
      ListInMemory(m, g);
      hide Ring;
      RingElsewhere(m, m', g);
    }
  }

  /** What the two joins do to the links is what unlinking the absorbed blocks would do. */
  lemma SamePtrs(m: Memory, c: nat, x: nat, right: bool, left: bool)
    requires c in m && x in m && m[c].ptr in m && c != x
    requires right <==> x + m[x].size == m[c].ptr
    requires left <==> c + m[c].size == x
    requires right ==> m[c].ptr != c && m[c].ptr != x
    ensures var mA := LinkedIn(m, c, x);
            var mB := if right then Unlinked(mA, x, m[c].ptr) else mA;
            var mC := if left then Unlinked(mB, c, x) else mB;
            forall o | o in mC :: o in ReleasedMemory(m, c, x) && ReleasedMemory(m, c, x)[o].ptr == mC[o].ptr
  {}

  lemma NextDiffers(f: seq<nat>, i: nat)
    requires Ascending(f) && i < |f| && |f| > 1
    ensures f[Next(i, |f|)] != f[i]
  {}

  lemma ListInMemory(m: Memory, f: seq<nat>)
    requires Ring(m, f)
    ensures forall o | o in f :: o in m
  {
    forall k | 0 <= k < |f|
      ensures f[k] in m
    {
      RingAt(m, f, k);
    }
  }

  /** Only a block that belongs before its list successor can end where that one starts. */
  lemma JoinsForward(f: seq<nat>, i: nat, x: nat)
    requires Ascending(f) && Between(f, i, x) && |f| > 1 && x < f[Next(i, |f|)]
    ensures InsertAt(f, i, x) < |f| && f[InsertAt(f, i, x)] == f[Next(i, |f|)]
  {}

  /** freeCust finds the neighbours of the block it frees where they are: the list successor is the
      only free piece that can follow the block, and the predecessor the only one before it. */
  lemma Neighbours(ps: Pieces, f: seq<nat>, i: nat, x: nat)
    requires Disjoint(ps) && Filed(ps, f) && Ascending(f) && Between(f, i, x)
    requires x in ps && !ps[x].free && forall o | o in ps :: ps[o].size > 0
    ensures f[i] in ps && f[Next(i, |f|)] in ps
    ensures FreeAt(ps, x + ps[x].size) <==> x + ps[x].size == f[Next(i, |f|)]
    ensures forall a | a in ps && ps[a].free && a + ps[a].size == x :: a == f[i]
  {
    assert f[i] in f && f[Next(i, |f|)] in f;
    var e := x + ps[x].size;
    if FreeAt(ps, e) {
      var k :| 0 <= k < |f| && f[k] == e;
      if i + 1 < |f| {
        assert f[i + 1] in f;
        assert k >= i + 1;
      } else {
        assert f[0] in f;
      }
    }
    forall a | a in ps && ps[a].free && a + ps[a].size == x
      ensures a == f[i]
    {
      var k :| 0 <= k < |f| && f[k] == a;
      assert k <= i;
      assert f[i] > x || f[i] <= a;
    }
  }

  /** The one case freeCust gets wrong: the list has a single node and the block ends where it
      starts. */
  ghost predicate SoleRightNeighbour(ps: Pieces, f: seq<nat>, x: nat) {
    |f| == 1 && x in ps && x + ps[x].size == f[0]
  }

  lemma ReleasedMembers(f: seq<nat>, i: nat, x: nat, e: nat, right: bool, left: bool)
    requires Ascending(f) && Between(f, i, x) && x !in f
    requires right ==> InsertAt(f, i, x) < |f| && f[InsertAt(f, i, x)] == e
    ensures forall o: nat :: o in ReleasedList(f, i, x, right, left) <==>
              (o in f && !(right && o == e)) || (o == x && !left)
  {
    var pos := InsertAt(f, i, x);
    var g := Insert(f, pos, x);
    InsertAscends(f, i, x);
    InsertIndex(f, pos, x, pos);
    var g2 := g;
    hide Between, Insert, Ascending;
    if right {
      InsertIndex(f, pos, x, pos + 1);
      CutMembers(g, pos + 1);
      CutIndex(g, pos + 1, pos);
      g2 := Cut(g, pos + 1);
    }
    if left {
      CutMembers(g2, pos);
    }
  }

  lemma ReleasedFiled(ps: Pieces, f: seq<nat>, i: nat, x: nat, right: bool, left: bool)
    requires Filed(ps, f) && Ascending(f) && Between(f, i, x) && x in ps && !ps[x].free
    requires right ==> InsertAt(f, i, x) < |f| && f[InsertAt(f, i, x)] == x + ps[x].size
    requires right ==> x + ps[x].size != f[i] && x + ps[x].size in ps
    ensures f[i] in ps
    ensures Filed(Released(ps, x, right, left, f[i]), ReleasedList(f, i, x, right, left))
    ensures f[i] in ReleasedList(f, i, x, right, left)
  {
    assert f[i] in f;
    ReleasedMembers(f, i, x, x + ps[x].size, right, left);
    hide Between, ReleasedList, Ascending;
  }

  lemma ReleasedStamped(m: Memory, ps: Pieces, c: nat, x: nat)
    requires Stamped(m, ps) && x in ps && c in ps && x != c && ps[x].size > 0 && m[c].ptr in ps
    requires x + ps[x].size == m[c].ptr ==> m[c].ptr != c
    ensures Stamped(ReleasedMemory(m, c, x),
                    Released(ps, x, x + ps[x].size == m[c].ptr, c + ps[c].size == x, c))
  {}

  lemma ReleasedMapped(m: Memory, total: nat, c: nat, x: nat)
    requires Mapped(m, total) && c in m && x in m && m[c].ptr in m && c != x
    ensures Mapped(ReleasedMemory(m, c, x), total)
  {}

  lemma ReleaseIsConsistent(m: Memory, total: nat, start: nat, f: seq<nat>, ps: Pieces, i: nat, x: nat)
    requires Consistent(m, total, start, f, ps) && Between(f, i, x) && x in ps && !ps[x].free
    requires !SoleRightNeighbour(ps, f, x)
    ensures x in m && f[i] in m && f[i] in ps && m[f[i]].ptr in m && x != f[i]
    ensures var right := x + ps[x].size == m[f[i]].ptr; var left := f[i] + ps[f[i]].size == x;
            (right ==> InsertAt(f, i, x) < |f| && x + ps[x].size in ps && m[f[i]].ptr != f[i]) &&
            Consistent(ReleasedMemory(m, f[i], x), total, f[i], ReleasedList(f, i, x, right, left),
                       Released(ps, x, right, left, f[i])) &&
            Live(Released(ps, x, right, left, f[i])) == Live(ps) - {x}
  {
    RingAscends(m, f);
    RingAt(m, f, i);
    PieceSize(ps, total, x);
    Neighbours(ps, f, i, x);
    ListInMemory(m, f);
    var c, next := f[i], f[Next(i, |f|)];
    var right, left := x + ps[x].size == next, c + ps[c].size == x;
    assert c in f && next in f;
    if right {
      NextDiffers(f, i);
      JoinsForward(f, i, x);
    }
    hide Tiling, Coalesced, Ring, Between, Ascending, Stamped, Filed, ReleasedMemory, ReleasedList, Released;
    ReleasedMapped(m, total, c, x);
    ReleasedIsCoalesced(ps, total, x, right, left, c);
    ReleasedLive(ps, x, right, left, c);
    ReleasedStamped(m, ps, c, x);
    ReleasedFiled(ps, f, i, x, right, left);
    ReleasedRing(m, f, i, x);
  }

  lemma OnePiece(total: nat)
    requires total > 0
    ensures Tiling(map[0 := Piece(total, true)], total)
  {
    var ps := map[0 := Piece(total, true)];
    forall x: nat | x < total
      ensures Covered(ps, x)
    {
      assert Covers(ps, 0, x);
    }
  }

  ghost predicate NoRepeats(q: seq<nat>) {
    forall i: nat, j: nat | i < j < |q| :: q[i] != q[j]
  }

  lemma DropFirst(q: seq<nat>, i: nat)
    requires NoRepeats(q) && i < |q|
    ensures q[i] in q[i..] && forall o: nat :: o in q[i + 1..] <==> o in q[i..] && o != q[i]
  {
    assert q[i..] == [q[i]] + q[i + 1..];
  }

  /** The block ends where the only free piece starts. */
  ghost predicate Corner(ps: Pieces, x: nat) {
    x in ps && FreeAt(ps, x + ps[x].size) && forall o | FreeAt(ps, o) :: o == x + ps[x].size
  }

  /** Freed in this order, no block comes to the corner. What the pieces are each time is determined by
      the blocks still allocated. */
  ghost predicate OffCorner(ps: Pieces, blocks: seq<nat>, total: nat)
    decreases |blocks|
  {
    blocks == [] ||
    (!Corner(ps, blocks[0]) &&
     forall qs | Tiling(qs, total) && Coalesced(qs) && Live(qs) == Live(ps) - {blocks[0]} ::
       OffCorner(qs, blocks[1..], total))
  }

  /** Freed in this order, the block at position k is the first to come to the corner. */
  ghost predicate ComesToCorner(ps: Pieces, blocks: seq<nat>, total: nat, k: nat)
    decreases k
  {
    k < |blocks| &&
    if k == 0 then Corner(ps, blocks[0])
    else
      && !Corner(ps, blocks[0])
      && forall qs | Tiling(qs, total) && Coalesced(qs) && Live(qs) == Live(ps) - {blocks[0]} ::
           ComesToCorner(qs, blocks[1..], total, k - 1)
  }

  lemma FirstOfThem(ps: Pieces, blocks: seq<nat>, total: nat, k: nat)
    requires ComesToCorner(ps, blocks, total, k)
    ensures k < |blocks| && (k == 0 ==> Corner(ps, blocks[0]))
  {}

  lemma {:induction false} NeverComes(ps: Pieces, blocks: seq<nat>, total: nat, k: nat)
    requires Tiling(ps, total) && Coalesced(ps) && NoRepeats(blocks)
    requires forall i: nat | i < |blocks| :: blocks[i] in Live(ps)
    requires OffCorner(ps, blocks, total)
    ensures !ComesToCorner(ps, blocks, total, k)
    decreases |blocks|
  {
    hide Tiling, Coalesced, Corner, Live;
    if blocks != [] && k > 0 {
      var qs := OnlyPieces(ps, blocks, total);
      OneOff(ps, qs, blocks, total);
      NeverComes(qs, blocks[1..], total, k - 1);
      OneFurther(ps, qs, blocks, total, k);
    }
  }

  lemma {:induction false} ComesOnce(ps: Pieces, blocks: seq<nat>, total: nat) returns (k: nat)
    requires Tiling(ps, total) && Coalesced(ps) && NoRepeats(blocks)
    requires forall i: nat | i < |blocks| :: blocks[i] in Live(ps)
    requires !OffCorner(ps, blocks, total)
    ensures ComesToCorner(ps, blocks, total, k)
    decreases |blocks|
  {
    hide Tiling, Coalesced, Corner, Live;
    k := 0;
    if !Corner(ps, blocks[0]) {
      var qs := OnlyPieces(ps, blocks, total);
      OneOff(ps, qs, blocks, total);
      k := ComesOnce(qs, blocks[1..], total);
      k := k + 1;
      OneFurther(ps, qs, blocks, total, k);
    }
  }

  /** The pieces that the first free leaves: there are no others. */
  lemma OnlyPieces(ps: Pieces, blocks: seq<nat>, total: nat) returns (qs: Pieces)
    requires Tiling(ps, total) && Coalesced(ps) && NoRepeats(blocks) && blocks != []
    requires forall i: nat | i < |blocks| :: blocks[i] in Live(ps)
    ensures Tiling(qs, total) && Coalesced(qs) && Live(qs) == Live(ps) - {blocks[0]}
    ensures forall os | Tiling(os, total) && Coalesced(os) && Live(os) == Live(ps) - {blocks[0]} :: os == qs
    ensures NoRepeats(blocks[1..]) && forall i: nat | i < |blocks[1..]| :: blocks[1..][i] in Live(qs)
  {
    hide Tiling, Coalesced, Live;
    qs := FreedPieces(ps, total, blocks[0]);
    forall os | Tiling(os, total) && Coalesced(os) && Live(os) == Live(ps) - {blocks[0]} ensures os == qs {
      LiveDeterminesPieces(os, qs, total);
    }
    StillLive(ps, qs, blocks);
  }

  /** An order that is not off the corner has such a block, and only such an order has one. */
  lemma OffCornerIff(ps: Pieces, blocks: seq<nat>, total: nat)
    requires Tiling(ps, total) && Coalesced(ps) && NoRepeats(blocks)
    requires forall i: nat | i < |blocks| :: blocks[i] in Live(ps)
    ensures OffCorner(ps, blocks, total) <==> !exists k: nat :: ComesToCorner(ps, blocks, total, k)
  {
    hide Tiling, Coalesced, Live, OffCorner, ComesToCorner;
    if OffCorner(ps, blocks, total) {
      forall k: nat ensures !ComesToCorner(ps, blocks, total, k) {
        NeverComes(ps, blocks, total, k);
      }
    } else {
      var k := ComesOnce(ps, blocks, total);
    }
  }

  lemma OneOff(ps: Pieces, qs: Pieces, blocks: seq<nat>, total: nat)
    requires blocks != [] && !Corner(ps, blocks[0])
    requires Tiling(qs, total) && Coalesced(qs) && Live(qs) == Live(ps) - {blocks[0]}
    requires forall os | Tiling(os, total) && Coalesced(os) && Live(os) == Live(ps) - {blocks[0]} :: os == qs
    ensures OffCorner(ps, blocks, total) <==> OffCorner(qs, blocks[1..], total)
  {
    hide Tiling, Coalesced, Corner, Live;
    if OffCorner(ps, blocks, total) {
      assert OffCorner(qs, blocks[1..], total);
    }
  }

  lemma OneFurther(ps: Pieces, qs: Pieces, blocks: seq<nat>, total: nat, k: nat)
    requires k > 0 && blocks != [] && !Corner(ps, blocks[0])
    requires Tiling(qs, total) && Coalesced(qs) && Live(qs) == Live(ps) - {blocks[0]}
    requires forall os | Tiling(os, total) && Coalesced(os) && Live(os) == Live(ps) - {blocks[0]} :: os == qs
    ensures ComesToCorner(ps, blocks, total, k) <==> ComesToCorner(qs, blocks[1..], total, k - 1)
  {
    hide Tiling, Coalesced, Corner, Live;
    if ComesToCorner(qs, blocks[1..], total, k - 1) {
      FirstOfThem(qs, blocks[1..], total, k - 1);
    }
  }

  lemma StillLive(ps: Pieces, qs: Pieces, blocks: seq<nat>)
    requires blocks != [] && NoRepeats(blocks) && Live(qs) == Live(ps) - {blocks[0]}
    requires forall i: nat | i < |blocks| :: blocks[i] in Live(ps)
    ensures NoRepeats(blocks[1..]) && forall i: nat | i < |blocks[1..]| :: blocks[1..][i] in Live(qs)
  {
    hide Live;
    forall i: nat | i < |blocks[1..]| ensures blocks[1..][i] in Live(qs) {
      assert blocks[0] != blocks[i + 1] && blocks[i + 1] in Live(ps);
    }
  }

  lemma CornerIs(m: Memory, total: nat, start: nat, f: seq<nat>, ps: Pieces, x: nat)
    requires Consistent(m, total, start, f, ps)
    ensures SoleRightNeighbour(ps, f, x) <==> Corner(ps, x)
  {
    hide Tiling, Coalesced, Stamped, Mapped;
    assert forall o: nat :: FreeAt(ps, o) <==> o in f;
    assert forall i: nat | i < |f| :: f[i] in f && FreeAt(ps, f[i]);
    if |f| > 1 {
      assert f[0] < f[1];
    }
  }

  /** c is the only free piece that is large enough, and not an exact fit of the only one there is. */
  ghost predicate OnlyFit(ps: Pieces, units: nat, c: nat) {
    && units > 0 && FreeAt(ps, c) && Holds(ps, c, units)
    && (forall o | FreeAt(ps, o) && Holds(ps, o, units) :: o == c)
    && !(ps[c].size == units && forall o | FreeAt(ps, o) :: o == c)
  }

  /** The only piece that fits is the next one that fits, and an exact fit of it harms only if it is alone. */
  lemma OnlyFits(ps: Pieces, f: seq<nat>, start: nat, units: nat, c: nat)
    requires Filed(ps, f) && Ascending(f) && FreeAt(ps, c)
    requires forall o | FreeAt(ps, o) && Holds(ps, o, units) :: o == c
    ensures forall o | NextFit(ps, f, start, units, o) :: o == c
    ensures SoleExactFit(ps, f, units) ==> ps[c].size == units && forall o | FreeAt(ps, o) :: o == c
  {
    assert forall i: nat | i < |f| :: f[i] in f && FreeAt(ps, f[i]);
    assert forall o | FreeAt(ps, o) :: o in f;
  }

  /** The pointer of an allocated block. */
  ghost predicate IsLive(ps: Pieces, p: Ptr) {
    p.At? && p.unit > 0 && p.unit - 1 in Live(ps)
  }

  /** Inside a free piece; inside the last one on the list, only its start. */
  ghost predicate InFree(ps: Pieces, f: seq<nat>, x: nat) {
    exists i: nat :: i < |f| && f[i] in ps && f[i] <= x < f[i] + ps[f[i]].size && (x == f[i] || i + 1 < |f|)
  }

  lemma LiveInside(ps: Pieces, total: nat)
    requires Tiling(ps, total)
    ensures forall x | x in Live(ps) :: x < total
  {}

  lemma FreedInMemory(m: Memory, total: nat, start: nat, f: seq<nat>, ps: Pieces, x: nat)
    requires Consistent(m, total, start, f, ps) && (x in Live(ps) || InFree(ps, f, x))
    ensures x in m
    ensures x in Live(ps) ==> x !in f
  {
    hide Ring, Coalesced, Stamped;
  }

  /** The last test of freeCust never fires for an allocated block, and catches what points into the
      inside of a free piece. */
  lemma AbsurdOrNot(m: Memory, total: nat, start: nat, f: seq<nat>, ps: Pieces, i: nat, x: nat)
    requires Consistent(m, total, start, f, ps) && Between(f, i, x) && x !in f && x in m
    requires x in Live(ps) || InFree(ps, f, x)
    ensures f[i] in m
    ensures x in Live(ps) <==>
            i + 1 == |f| || !(f[i] + m[f[i]].size > x || x + m[x].size > m[f[i]].ptr)
  {
    RingAt(m, f, i);
    StampedAt(m, ps, f, f[i]);
    if x in Live(ps) {
      PieceSize(ps, total, x);
      assert f[i] in f && (i + 1 < |f| ==> f[i + 1] in f);
    } else {
      var j: nat :| j < |f| && f[j] in ps && f[j] <= x < f[j] + ps[f[j]].size && (x == f[j] || j + 1 < |f|);
      assert f[j] in f && f[j + 1] in f;
      RingAscends(m, f);
      assert Between(f, j, x);
      PositionUnique(f, i, j, x);
    }
    hide Ring, Coalesced, Mapped;
  }

  /** Where the walk of freeCust ends: the place of the block, or the one before it if it is listed. */
  lemma Destination(f: seq<nat>, x: nat) returns (i: nat)
    requires Ascending(f) && f != []
    ensures i < |f| && if x in f then f[Next(i, |f|)] == x else Between(f, i, x)
  {
    if x in f {
      var t: nat :| t < |f| && f[t] == x;
      i := if t == 0 then |f| - 1 else t - 1;
    } else {
      i := Position(f, x);
    }
  }

  /** The test that ends the search, at position i, is whether the block belongs there. */
  lemma HereOrNot(f: seq<nat>, i: nat, target: nat, x: nat)
    requires Ascending(f) && i < |f| && target < |f| && x != f[i]
    requires if x in f then f[Next(target, |f|)] == x else Between(f, target, x)
    ensures var a, b := f[i], f[Next(i, |f|)];
            ((x > a && x < b) || (a >= b && x != b && (x > a || x < b))) <==> i == target && x !in f
    ensures var a, b := f[i], f[Next(i, |f|)]; (a >= b) == (i + 1 == |f|)
    ensures x > f[i] && x < f[Next(i, |f|)] ==> i + 1 < |f|
    ensures x in f && i == target ==> x == f[Next(i, |f|)]
  {
    var b := f[Next(i, |f|)];
    if x !in f && i != target && ((x > f[i] && x < b) || (f[i] >= b && (x > f[i] || x < b))) {
      PositionUnique(f, i, target, x);
    }
  }

  lemma InMemory(m: Memory, total: nat, start: nat, f: seq<nat>, ps: Pieces, i: nat, x: nat)
    requires Consistent(m, total, start, f, ps) && Between(f, i, x) && x in Live(ps)
    ensures x in ps && !ps[x].free
    ensures i < |f| && x in m && f[i] in m && f[i] in ps && m[f[i]].ptr in m && x != f[i]
  {
    hide Tiling, Coalesced;
    RingAt(m, f, i);
    assert f[i] in f && f[Next(i, |f|)] in f;
  }

  /** The sole node is absorbed by the block freed in front of it, but freeCust keeps it linked. */
  lemma SoleRelease(m: Memory, total: nat, start: nat, f: seq<nat>, ps: Pieces, i: nat, x: nat)
    requires Consistent(m, total, start, f, ps) && Between(f, i, x) && x in ps && !ps[x].free
    requires SoleRightNeighbour(ps, f, x)
    ensures f[i] in ps
    ensures var qs := Fuse(ps[x := Piece(ps[x].size, true)], x, f[i]);
            Tiling(qs, total) && Coalesced(qs) && Live(qs) == Live(ps) - {x} && f[i] !in qs
  {
    PieceSize(ps, total, x);
    assert f[i] in f;
    FreeingKeepsTiling(ps, total, x);
    var p1 := ps[x := Piece(ps[x].size, true)];
    var c := f[i];
    assert forall a | a in ps && ps[a].free :: a == c;
    SoleFuse(ps, p1, total, x, c);
  }

  lemma SoleFuse(ps: Pieces, p1: Pieces, total: nat, x: nat, c: nat)
    requires x in ps && !ps[x].free && ps[x].size > 0 && FreeAt(ps, c) && x + ps[x].size == c
    requires forall a | a in ps && ps[a].free :: a == c
    requires p1 == ps[x := Piece(ps[x].size, true)] && Tiling(p1, total) && CoalescedBut(p1, x)
    ensures var qs := Fuse(p1, x, c);
            Tiling(qs, total) && Coalesced(qs) && Live(qs) == Live(ps) - {x} && c !in qs
  {
    hide Tiling, CoalescedBut, NothingAfter, Coalesced;
    AfterJoiningRight(p1, total, x);
    assert Live(Fuse(p1, x, c)) == Live(ps) - {x};
    WithoutJoiningLeft(Fuse(p1, x, c), total, x);
  }

  // ----- what callers get -----

  /** The units counted for a request hold its bytes and the header, with less than a unit to
      spare, exactly when rounding up does not wrap the word. */
  lemma UnitsHoldRequest(nbytes: nat)
    requires 0 < nbytes < 0x1_0000_0000_0000_0000
    ensures nbytes + HEADER_SIZE - 1 < 0x1_0000_0000_0000_0000 <==>
            nbytes + HEADER_SIZE <= Units(nbytes) * HEADER_SIZE < nbytes + 2 * HEADER_SIZE
    ensures nbytes + HEADER_SIZE - 1 >= 0x1_0000_0000_0000_0000 ==> Units(nbytes) == 1
  {}

  /** A piece cut for a request is clear of every block that was already allocated. */
  lemma AllottedIsExclusive(ps: Pieces, total: nat, c: nat, units: nat)
    requires Tiling(ps, total) && Coalesced(ps) && c in ps && ps[c].free && 0 < units <= ps[c].size
    ensures var r := AllotStart(ps, c, units); var qs := Allotted(ps, c, units);
            r !in Live(ps) && r + units <= total && Live(qs) == Live(ps)[r := units] &&
            forall o | o in Live(ps) :: o + Live(ps)[o] <= r || r + units <= o
  {
    hide Coalesced, Covered;
    AllotLive(ps, c, units);
  }

  /** Freeing what was just allocated restores the arena exactly. */
  lemma FreeUndoesMalloc(ps: Pieces, total: nat, c: nat, units: nat, qs: Pieces)
    requires Tiling(ps, total) && Coalesced(ps) && c in ps && ps[c].free && 0 < units <= ps[c].size
    requires Tiling(qs, total) && Coalesced(qs)
    requires Live(qs) == Live(Allotted(ps, c, units)) - {AllotStart(ps, c, units)}
    ensures qs == ps
  {
    AllotLive(ps, c, units);
    assert Live(qs) == Live(ps);
    hide Tiling, Coalesced;
    LiveDeterminesPieces(ps, qs, total);
  }

  // ----- the two corners -----

  /** Asking a new arena for the memory it was given: an exact fit of the only piece. */
  method WholeArena(memSize: nat, contents: Memory) returns (a: Allocator)
    requires 0 < memSize && (memSize + HEADER_SIZE - 1) / HEADER_SIZE + 1 < 0x1_0000_0000
    requires Mapped(contents, (memSize + HEADER_SIZE - 1) / HEADER_SIZE + 1)
    ensures fresh(a) && !Sound(a.mem, a.totalUnits, a.startingNode, a.pieces)
  {
    a := new Allocator(memSize, contents);
    assert 0 in a.pieces && a.pieces[0].free && Holds(a.pieces, 0, Units(memSize));
    assert SoleExactFit(a.pieces, a.free, Units(memSize));
    var p := a.Malloc(memSize);
  }

  /** In an arena of seven units: two blocks are allocated, the first is freed and another one taken from
      the front; freeing the second one then joins it to the only piece, its right neighbour. */
  method LastNeighbour(contents: Memory) returns (a: Allocator)
    requires Mapped(contents, 7)
    ensures fresh(a) && !Sound(a.mem, a.totalUnits, a.startingNode, a.pieces)
  {
    ghost var p1, p2, p3, p4 := SevenUnits();
    FewUnits();
    a := TwoBlocks(contents, p2);
    hide Units, Mapped, Consistent, Tiling, Coalesced, Live, Corner, OnlyFit, Allotted, AllotStart, Sound;
    a.FreeTo(5, p3);
    var third := a.TakeOnly(32, 0);
    a.FreeAtCorner(3);
  }

  lemma FewUnits()
    ensures Units(16) == 2 && Units(32) == 3
  {}

  method TwoBlocks(contents: Memory, ghost p2: Pieces) returns (a: Allocator)
    requires Mapped(contents, 7)
    requires var p0 := map[0 := Piece(7, true)]; var p1 := Allotted(p0, 0, 2);
             OnlyFit(p0, 2, 0) && OnlyFit(p1, 2, 0) && p2 == Allotted(p1, 0, 2)
    ensures fresh(a) && a.Valid() && a.totalUnits == 7 && a.pieces == p2
  {
    FewUnits();
    a := new Allocator(96, contents);
    assert a.totalUnits == 7;
    hide Units, Mapped, Consistent, OnlyFit, Allotted, AllotStart;
    var first := a.TakeOnly(16, 0);
    var second := a.TakeOnly(16, 0);
  }

  /** The pieces after each step. */
  lemma SevenUnits() returns (p1: Pieces, p2: Pieces, p3: Pieces, p4: Pieces)
    ensures var p0 := map[0 := Piece(7, true)];
            OnlyFit(p0, 2, 0) && p1 == Allotted(p0, 0, 2) && OnlyFit(p1, 2, 0) && p2 == Allotted(p1, 0, 2)
    ensures 5 in Live(p2) && !Corner(p2, 5) && Tiling(p3, 7) && Coalesced(p3) && Live(p3) == Live(p2) - {5}
    ensures OnlyFit(p3, 3, 0) && p4 == Allotted(p3, 0, 3) && 3 in Live(p4) && Corner(p4, 3)
  {
    var p0: Pieces := map[0 := Piece(7, true)];
    p1, p2 := Allotted(p0, 0, 2), Allotted(Allotted(p0, 0, 2), 0, 2);
    p3 := map[0 := Piece(3, true), 3 := Piece(2, false), 5 := Piece(2, true)];
    p4 := Allotted(p3, 0, 3);
    SevenTiled(p3);
    SevenFits(p0, p1, p3);
    assert p2 == map[0 := Piece(3, true), 3 := Piece(2, false), 5 := Piece(2, false)];
    SevenCorners(p2, p3, p4);
    hide OnlyFit, Tiling, Coalesced, Live, Corner, Allotted;
  }

  lemma SevenFits(p0: Pieces, p1: Pieces, p3: Pieces)
    requires p0 == map[0 := Piece(7, true)] && p1 == Allotted(p0, 0, 2)
    requires p3 == map[0 := Piece(3, true), 3 := Piece(2, false), 5 := Piece(2, true)]
    ensures OnlyFit(p0, 2, 0) && OnlyFit(p1, 2, 0) && OnlyFit(p3, 3, 0)
  {
    assert FreeAt(p3, 5);
  }

  lemma SevenCorners(p2: Pieces, p3: Pieces, p4: Pieces)
    requires p2 == map[0 := Piece(3, true), 3 := Piece(2, false), 5 := Piece(2, false)]
    requires p3 == map[0 := Piece(3, true), 3 := Piece(2, false), 5 := Piece(2, true)] && p4 == Allotted(p3, 0, 3)
    ensures 5 in Live(p2) && !Corner(p2, 5) && Live(p3) == Live(p2) - {5} && 3 in Live(p4) && Corner(p4, 3)
  {}

  lemma SevenTiled(p3: Pieces)
    requires p3 == map[0 := Piece(3, true), 3 := Piece(2, false), 5 := Piece(2, true)]
    ensures Tiling(p3, 7) && Coalesced(p3)
  {
    forall x: nat | x < 7 ensures Covered(p3, x) {
      assert Covers(p3, if x < 3 then 0 else if x < 5 then 3 else 5, x);
    }
  }
}
