/** buddyList.c: circular doubly linked lists of block headers. The link fields live in the heap
    being managed, so a list is a ring of addresses in a memory of headers. */
module BuddyList {

  /** Where a header lives: one of the static list heads, or an offset into the heap. */
  datatype Addr = Null | Head(level: nat) | Block(off: nat)

  /** The header at an address (struct List). */
  datatype Node = Node(free: bool, level: int, prev: Addr, next: Addr)

  type Memory = map<Addr, Node>

  /** The j-th stop on the ring of list i holding the blocks s: its head, then the blocks in order,
      then the head again. */
  function Stop(i: nat, s: seq<nat>, j: nat): Addr
    requires j <= |s| + 1
  {
    if 1 <= j <= |s| then Block(s[j - 1]) else Head(i)
  }

  ghost predicate NoDuplicates(s: seq<nat>) {
    forall j, k | 0 <= j < k < |s| :: s[j] != s[k]
  }

  ghost predicate InMemory(m: Memory, i: nat, s: seq<nat>) {
    Head(i) in m && forall o | o in s :: Block(o) in m
  }

  /** List i threads exactly the blocks s, in that order, both ways round. */
  ghost predicate Threaded(m: Memory, i: nat, s: seq<nat>) {
    && NoDuplicates(s)
    && InMemory(m, i, s)
    && forall j: nat, k: nat | j <= |s| && k == j + 1 :: Linked(m, Stop(i, s, j), Stop(i, s, k))
  }

  ghost predicate Linked(m: Memory, a: Addr, b: Addr) {
    a in m && b in m && m[a].next == b && m[b].prev == a
  }

  ghost predicate OnRing(i: nat, s: seq<nat>, a: Addr) {
    a == Head(i) || (a.Block? && a.off in s)
  }

  /** Only links changed, and only on the ring of list i. */
  ghost predicate RelinkedOnly(m: Memory, m': Memory, i: nat, s: seq<nat>) {
    && m'.Keys == m.Keys
    && (forall a | a in m :: m'[a].free == m[a].free && m'[a].level == m[a].level)
    && (forall a | a in m && !OnRing(i, s, a) :: m'[a] == m[a])
  }

  /** A ring is untouched by a change elsewhere. */
  lemma ThreadedElsewhere(m: Memory, m': Memory, i: nat, s: seq<nat>)
    requires Threaded(m, i, s)
    requires forall a | OnRing(i, s, a) :: a in m' && a in m && m'[a].prev == m[a].prev && m'[a].next == m[a].next
    ensures Threaded(m', i, s)
  {
    forall j: nat, k: nat | j <= |s| && k == j + 1
      ensures Linked(m', Stop(i, s, j), Stop(i, s, k))
    {
      assert Linked(m, Stop(i, s, j), Stop(i, s, k));
      assert OnRing(i, s, Stop(i, s, j)) && OnRing(i, s, Stop(i, s, k));
    }
  }

  lemma EmptyRing(m: Memory, i: nat)
    requires Head(i) in m && m[Head(i)].prev == Head(i) && m[Head(i)].next == Head(i)
    ensures Threaded(m, i, [])
  {}

  /** The memory of headers, with the list operations the allocator performs on it. */
  class Headers {
    var at: Memory

    constructor (contents: Memory)
      ensures at == contents
    {
      at := contents;
    }

    method SetFree(a: Addr, free: bool)
      requires a in at
      modifies this
      ensures at == old(at)[a := old(at)[a].(free := free)]
    {
      at := at[a := at[a].(free := free)];
    }

    method SetLevel(a: Addr, level: int)
      requires a in at
      modifies this
      ensures at == old(at)[a := old(at)[a].(level := level)]
    {
      at := at[a := at[a].(level := level)];
    }

    method ListInit(ghost i: nat, list: Addr)
      requires list == Head(i) && list in at
      modifies this
      ensures Threaded(at, i, [])
      ensures RelinkedOnly(old(at), at, i, [])
    {
      at := at[list := at[list].(prev := list)];
      at := at[list := at[list].(next := list)];
      EmptyRing(at, i);
    }

    method IsEmpty(ghost i: nat, ghost s: seq<nat>, list: Addr) returns (empty: bool)
      requires list == Head(i) && Threaded(at, i, s)
      ensures empty <==> s == []
    {
      assert Linked(at, Stop(i, s, |s|), Stop(i, s, |s| + 1));
      empty := at[list].prev == list;
    }

    /** Appends the block at the tail of the list. */
    method ListPush(ghost i: nat, ghost s: seq<nat>, list: Addr, entry: Addr)
      requires list == Head(i) && Threaded(at, i, s)
      requires entry.Block? && entry in at && entry.off !in s
      modifies this
      ensures Threaded(at, i, s + [entry.off])
      ensures RelinkedOnly(old(at), at, i, s + [entry.off])
    {
      ghost var m := at;
      ghost var t := s + [entry.off];
      assert Linked(at, Stop(i, s, |s|), Stop(i, s, |s| + 1));
      var prev := at[list].prev;
      at := at[entry := at[entry].(prev := prev)];
      at := at[entry := at[entry].(next := list)];
      at := at[prev := at[prev].(next := entry)];
      at := at[list := at[list].(prev := entry)];
      forall j: nat, k: nat | j <= |t| && k == j + 1
        ensures Linked(at, Stop(i, t, j), Stop(i, t, k))
      {
        if k <= |s| {
          assert Linked(m, Stop(i, s, j), Stop(i, s, k));
          assert Stop(i, t, j) == Stop(i, s, j) && Stop(i, t, k) == Stop(i, s, k);
        }
      }
    }

    /** Unlinks the k-th block of the list. */
    method ListRemove(ghost i: nat, ghost s: seq<nat>, ghost n: nat, entry: Addr)
      requires Threaded(at, i, s) && n < |s| && entry == Block(s[n])
      modifies this
      ensures Threaded(at, i, s[..n] + s[n + 1..])
      ensures RelinkedOnly(old(at), at, i, s)
    {
      ghost var m := at;
      ghost var t := s[..n] + s[n + 1..];
      assert Linked(at, Stop(i, s, n), Stop(i, s, n + 1));
      assert Linked(at, Stop(i, s, n + 1), Stop(i, s, n + 2));
      var prev := at[entry].prev;
      var next := at[entry].next;
      at := at[prev := at[prev].(next := next)];
      at := at[next := at[next].(prev := prev)];
      forall j: nat, k: nat | j <= |t| && k == j + 1
        ensures Linked(at, Stop(i, t, j), Stop(i, t, k))
      {
        if k <= n {
          assert Linked(m, Stop(i, s, j), Stop(i, s, k));
        } else if n < j {
          assert Linked(m, Stop(i, s, j + 1), Stop(i, s, k + 1));
        }
      }
    }

    /** Unlinks and returns the last block of a non-empty list. */
    method ListPop(ghost i: nat, ghost s: seq<nat>, list: Addr) returns (back: Addr)
      requires list == Head(i) && Threaded(at, i, s)
      modifies this
      ensures s == [] ==> back == Null && at == old(at)
      ensures s != [] ==> back == Block(s[|s| - 1]) && Threaded(at, i, s[..|s| - 1]) &&
                          RelinkedOnly(old(at), at, i, s)
    {
      assert Linked(at, Stop(i, s, |s|), Stop(i, s, |s| + 1));
      back := at[list].prev;
      if back == list {
        return Null;
      }
      assert s[..|s| - 1] + s[|s|..] == s[..|s| - 1];
      ListRemove(i, s, |s| - 1, back);
    }
  }
}
