/** Machine arithmetic the kernel relies on: powers of two, and the bitwise operators on unsigned
    words written out bit by bit, with what they do to aligned offsets. */
module Bits {

  function Pow2(n: nat): (r: nat)
    ensures r >= 1
  {
    if n == 0 then 1 else 2 * Pow2(n - 1)
  }

  /** Bitwise exclusive or of two unsigned words (C's `^`). */
  function BitXor(a: nat, b: nat): nat
    decreases a + b
  {
    if a == 0 && b == 0 then 0
    else (if a % 2 == b % 2 then 0 else 1) + 2 * BitXor(a / 2, b / 2)
  }

  /** Bitwise and of two unsigned words (C's `&`). */
  function BitAnd(a: nat, b: nat): nat
    decreases a + b
  {
    if a == 0 && b == 0 then 0
    else (if a % 2 == 1 && b % 2 == 1 then 1 else 0) + 2 * BitAnd(a / 2, b / 2)
  }

  /** Bitwise complement in an n-bit word (C's `~`). */
  function BitNot(n: nat, a: nat): nat
    requires a < Pow2(n)
  {
    Pow2(n) - 1 - a
  }

  lemma {:induction false} Pow2Monotone(m: nat, n: nat)
    requires m <= n
    ensures Pow2(m) <= Pow2(n)
    ensures m < n ==> 2 * Pow2(m) <= Pow2(n)
  {
    if m < n {
      Pow2Monotone(m, n - 1);
    }
  }

  /** Every smaller power divides every larger one. */
  lemma {:induction false} Pow2Divides(m: nat, n: nat)
    requires m <= n
    ensures Pow2(n) == Pow2(n - m) * Pow2(m)
  {
    if m < n {
      Pow2Divides(m, n - 1);
      assert Pow2(n) == 2 * (Pow2(n - 1 - m) * Pow2(m));
    }
  }

  lemma Pow2Values()
    ensures Pow2(4) == 16 && Pow2(5) == 32 && Pow2(10) == 1024 && Pow2(20) == 0x10_0000
    ensures Pow2(26) == 0x400_0000 && Pow2(30) == 0x4000_0000 && Pow2(31) == 0x8000_0000
  {
    assert Pow2(5) == 32;
    Pow2Divides(5, 10);
    Pow2Divides(10, 20);
    Pow2Divides(10, 30);
    assert Pow2(31) == 2 * Pow2(30);
    assert Pow2(30) == 2 * 2 * 2 * 2 * Pow2(26);
  }

  lemma {:induction false} XorZero(a: nat)
    ensures BitXor(a, 0) == a
  {
    if a != 0 {
      XorZero(a / 2);
    }
  }

  lemma HalvingCommutes(o: nat, p: nat)
    requires p > 0
    ensures (o / 2) / p == o / (2 * p)
  {
    var q := o / (2 * p);
    var r := o % (2 * p);
    assert o == 2 * p * q + r;
    assert o / 2 == p * q + r / 2;
    assert 0 <= r / 2 < p;
    DivUnique(o / 2, p, q, r / 2);
  }

  lemma DivUnique(a: int, p: int, q: int, r: int)
    requires p > 0 && a == p * q + r && 0 <= r < p
    ensures a / p == q && a % p == r
  {
    MulMonotone(p, q, a / p);
    MulMonotone(p, a / p, q);
  }

  lemma {:induction false} MulMonotone(p: int, x: int, y: int)
    requires p > 0
    ensures x < y ==> p * x + p <= p * y
    decreases y - x
  {
    if x + 1 < y {
      MulMonotone(p, x, y - 1);
      assert p * y == p * (y - 1) + p;
    } else if x + 1 == y {
      assert p * y == p * x + p;
    }
  }

  /** Exclusive or with a single bit toggles that bit: it adds the bit's weight where it was
      clear and takes it away where it was set. */
  lemma {:induction false} XorTogglesBit(o: nat, k: nat)
    ensures BitXor(o, Pow2(k)) == if (o / Pow2(k)) % 2 == 0 then o + Pow2(k) else o - Pow2(k)
  {
    if k == 0 {
      XorZero(o / 2);
    } else {
      var p := Pow2(k - 1);
      XorTogglesBit(o / 2, k - 1);
      HalvingCommutes(o, p);
      assert BitXor(o, 2 * p) == o % 2 + 2 * BitXor(o / 2, p);
    }
  }

  lemma {:induction false} AndAllOnes(o: nat, n: nat)
    requires o < Pow2(n)
    ensures BitAnd(o, Pow2(n) - 1) == o
  {
    if n != 0 {
      AndAllOnes(o / 2, n - 1);
    }
  }

  /** And with the complement of a single bit clears that bit. */
  lemma {:induction false} AndNotClearsBit(o: nat, k: nat, n: nat)
    requires k < n && o < Pow2(n)
    requires Pow2(k) < Pow2(n)
    ensures BitAnd(o, BitNot(n, Pow2(k))) == if (o / Pow2(k)) % 2 == 0 then o else o - Pow2(k)
  {
    var mask := BitNot(n, Pow2(k));
    if k == 0 {
      assert mask == 2 * (Pow2(n - 1) - 1);
      AndAllOnes(o / 2, n - 1);
      assert BitAnd(o, mask) == 2 * (o / 2);
    } else {
      Pow2Monotone(k, n - 1);
      assert Pow2(k - 1) < Pow2(n - 1);
      AndNotClearsBit(o / 2, k - 1, n - 1);
      HalvingCommutes(o, Pow2(k - 1));
      assert mask == 2 * BitNot(n - 1, Pow2(k - 1)) + 1;
      AndOdd(o, BitNot(n - 1, Pow2(k - 1)));
    }
    hide BitAnd, BitNot;
  }

  lemma AndOdd(o: nat, m: nat)
    ensures BitAnd(o, 2 * m + 1) == o % 2 + 2 * BitAnd(o / 2, m)
  {
    assert (2 * m + 1) / 2 == m && (2 * m + 1) % 2 == 1;
  }

  lemma {:induction false} AndZeroRight(a: nat)
    ensures BitAnd(a, 0) == 0
  {
    if a != 0 {
      AndZeroRight(a / 2);
    }
  }

  /** The test `b && !(b & (b - 1))` holds exactly of the powers of two. */
  lemma {:induction false} PowerOfTwoTest(b: nat, r: nat)
    requires Pow2(r) <= b < Pow2(r + 1)
    ensures BitAnd(b, b - 1) == 0 <==> b == Pow2(r)
  {
    if r == 0 {
      assert b == 1;
      AndZeroRight(1);
    } else {
      PowerOfTwoTest(b / 2, r - 1);
      if b % 2 == 0 {
        assert (b - 1) / 2 == b / 2 - 1;
      } else {
        AndSelf(b / 2);
        assert (b - 1) / 2 == b / 2;
        assert BitAnd(b, b - 1) == 2 * (b / 2);
      }
    }
  }

  lemma {:induction false} AndSelf(a: nat)
    ensures BitAnd(a, a) == a
  {
    if a != 0 {
      AndSelf(a / 2);
    }
  }

  /** The kernel's log2: -1 for zero, otherwise the position of the highest set bit. The C loop
      shifts right until nothing is left. */
  method Log2(n: nat) returns (ans: int)
    ensures n == 0 ==> ans == -1
    ensures n > 0 ==> ans >= 0 && Pow2(ans) <= n < Pow2(ans + 1)
  {
    if n == 0 {
      return -1;
    }
    ans := -1;
    var m := n;
    while m != 0
      invariant ans >= -1
      invariant Quotient(n, Pow2(ans + 1), m)
      invariant m == 0 ==> ans >= 0 && Pow2(ans) <= n
      decreases m
    {
      QuotientHalves(n, Pow2(ans + 1), m);
      ans := ans + 1;
      m := m / 2;
    }
  }

  /** m is n divided by p, rounded down. */
  ghost predicate Quotient(n: nat, p: nat, m: nat) {
    p * m <= n < p * m + p
  }

  lemma QuotientHalves(n: nat, p: nat, m: nat)
    requires m > 0 && p > 0 && Quotient(n, p, m)
    ensures Quotient(n, 2 * p, m / 2)
    ensures p <= n
  {
    var h := m / 2;
    Reassociate(p, h);
    MulMonotone(p, 0, m);
    if m == 2 * h + 1 {
      Distribute(p, 2 * h);
    }
  }

  lemma Reassociate(p: int, h: int)
    ensures p * (2 * h) == (2 * p) * h
  {}

  lemma Distribute(p: int, x: int)
    ensures p * (x + 1) == p * x + p
  {}
}
