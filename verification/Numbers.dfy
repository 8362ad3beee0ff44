/** The number printers and parsers of both utils.c files: digits are written backwards into a buffer and
    reversed in place, and read back with 64-bit arithmetic. */
module Numbers {
  import Bits

  const WORD64: nat := 0x1_0000_0000_0000_0000

  // ----- digits -----

  /** The character of a digit, as the printers compute it. */
  function DigitChar(d: nat): char
    requires d < 36
  {
    if d < 10 then '0' + d as char else 'A' + (d - 10) as char
  }

  /** The digit of a character in strToHex; IS_DIGIT accepts the first kind only. */
  predicate IsDigit(c: char) {
    '0' <= c <= '9'
  }

  predicate IsHex(c: char) {
    IsDigit(c) || 'a' <= c <= 'f' || 'A' <= c <= 'F'
  }

  function DigitOf(c: char): (d: nat)
    requires IsHex(c)
    ensures d < 16 && (IsDigit(c) ==> d < 10)
  {
    if IsDigit(c) then (c - '0') as nat
    else if 'a' <= c <= 'f' then (c - 'a') as nat + 10
    else (c - 'A') as nat + 10
  }

  const ALPHABET: string := "0123456789ABCDEFGHIJKLMNOPQRSTUVWXYZ"

  const HEX_DIGITS: string := "0123456789ABCDEFabcdef"

  /** The characters that are read as digits, and which digits they are. */
  lemma DigitsAre(c: char)
    ensures IsDigit(c) <==> exists d: nat :: d < 10 && HEX_DIGITS[d] == c
    ensures IsHex(c) <==> exists d: nat :: d < 22 && HEX_DIGITS[d] == c
    ensures forall d: nat | d < 22 && HEX_DIGITS[d] == c :: DigitOf(c) == if d < 16 then d else d - 6
  {
    if IsDigit(c) {
      assert HEX_DIGITS[(c - '0') as int] == c;
    } else if 'a' <= c <= 'f' {
      assert HEX_DIGITS[16 + (c - 'a') as int] == c;
    } else if 'A' <= c <= 'F' {
      assert HEX_DIGITS[10 + (c - 'A') as int] == c;
    }
  }

  lemma DigitCharIs(d: nat)
    requires d < 36
    ensures DigitChar(d) == ALPHABET[d]
  {}

  lemma DigitRoundTrip(d: nat)
    requires d < 16
    ensures IsHex(DigitChar(d)) && DigitOf(DigitChar(d)) == d && (d < 10 ==> IsDigit(DigitChar(d)))
  {}

  /** The numeral of a number, most significant digit first. */
  function Numeral(v: nat, base: nat): (s: string)
    requires 2 <= base <= 36
    ensures s != ""
  {
    if v < base then [DigitChar(v)] else Numeral(v / base, base) + [DigitChar(v % base)]
  }

  /** The number a string of digits stands for. */
  function Value(s: string, base: nat): nat
    requires forall i: nat | i < |s| :: IsHex(s[i])
  {
    if s == "" then 0 else Value(s[..|s| - 1], base) * base + DigitOf(s[|s| - 1])
  }

  /** The first digit counts for the highest power of the base. */
  lemma {:induction false} ValueFirst(s: string, base: nat)
    requires s != "" && forall i: nat | i < |s| :: IsHex(s[i])
    ensures Value(s, base) == DigitOf(s[0]) * Power(base, |s| - 1) + Value(s[1..], base)
    decreases |s|
  {
    var n := |s|;
    hide DigitOf, IsHex;
    if n > 1 {
      var t := s[..n - 1];
      assert t[1..] == s[1..][..n - 2];
      ValueFirst(t, base);
      Shift(DigitOf(s[0]), Power(base, n - 2), Value(t[1..], base), base);
      hide Power;
    } else {
      assert s[..0] == "" && s[1..] == "";
    }
  }

  lemma Shift(a: nat, p: nat, b: nat, base: nat)
    ensures (a * p + b) * base == a * (base * p) + b * base
  {}

  lemma ValueSnoc(s: string, c: char, base: nat)
    requires (forall i: nat | i < |s| :: IsHex(s[i])) && IsHex(c)
    ensures forall i: nat | i < |s + [c]| :: IsHex((s + [c])[i])
    ensures Value(s + [c], base) == Value(s, base) * base + DigitOf(c)
  {
    assert (s + [c])[..|s|] == s;
  }

  /** A numeral has only digits of its base, and stands for its number. */
  lemma {:induction false} NumeralValue(v: nat, base: nat)
    requires 2 <= base <= 16
    ensures var s := Numeral(v, base);
            && (forall i: nat | i < |s| :: IsHex(s[i]) && (base <= 10 ==> IsDigit(s[i])))
            && Value(s, base) == v
    decreases v
  {
    NoDigits(base);
    NumeralSplit(v, base);
    hide Value, IsHex, IsDigit, DigitChar, DigitOf, Numeral;
    var q, r := v / base, v % base;
    if q == 0 {
      StepValue(0, r, base, "");
    } else {
      DivLess(v, base);
      NumeralValue(q, base);
      StepValue(q, r, base, Numeral(q, base));
    }
  }

  lemma NoDigits(base: nat)
    ensures Value("", base) == 0
  {}

  lemma NumeralSplit(v: nat, base: nat)
    requires 2 <= base <= 36
    ensures Numeral(v, base) == (if v / base == 0 then "" else Numeral(v / base, base)) + [DigitChar(v % base)]
    ensures v == v / base * base + v % base && v % base < base
  {
    SmallQuotient(v, base);
    Euclid(v, base);
    if v < base {
      assert "" + [DigitChar(v)] == [DigitChar(v)];
    }
  }

  /** One more digit. */
  lemma StepValue(q: nat, r: nat, base: nat, t: string)
    requires forall i: nat | i < |t| :: IsHex(t[i]) && (base <= 10 ==> IsDigit(t[i]))
    requires r < base <= 16 && Value(t, base) == q
    ensures var s := t + [DigitChar(r)];
            (forall i: nat | i < |s| :: IsHex(s[i]) && (base <= 10 ==> IsDigit(s[i]))) && Value(s, base) == q * base + r
  {
    DigitRoundTrip(r);
    ValueSnoc(t, DigitChar(r), base);
    hide Value, DigitChar, DigitOf;
  }

  lemma Euclid(v: nat, base: nat)
    requires base > 0
    ensures v == v / base * base + v % base && v % base < base
  {}

  function Zeros(n: nat): string {
    seq(n, _ => '0')
  }

  /** Zeros in front change nothing. */
  lemma {:induction false} ZerosValue(n: nat, s: string, base: nat)
    requires forall i: nat | i < |s| :: IsHex(s[i])
    ensures Value(Zeros(n) + s, base) == Value(s, base)
    decreases |s|, n
  {
    var t := Zeros(n) + s;
    if s != "" {
      assert t[..|t| - 1] == Zeros(n) + s[..|s| - 1];
      ZerosValue(n, s[..|s| - 1], base);
    } else if n > 0 {
      assert t[..|t| - 1] == Zeros(n - 1) + s;
      ZerosValue(n - 1, s, base);
    }
  }

  /** What has been read of a numeral never exceeds the whole. */
  lemma {:induction false} PrefixValue(s: string, k: nat, base: nat)
    requires base >= 1 && k <= |s| && forall i: nat | i < |s| :: IsHex(s[i])
    ensures Value(s[..k], base) <= Value(s, base)
    decreases |s|
  {
    if k == |s| {
      assert s[..k] == s;
    } else {
      var t := s[..|s| - 1];
      PrefixValue(t, k, base);
      assert t[..k] == s[..k];
      assert Value(s, base) == Value(t, base) * base + DigitOf(s[|s| - 1]);
      hide Value, DigitOf, IsHex;
      if Value(t, base) > 0 {
        Bits.MulMonotone(Value(t, base), 1, base);
      }
    }
  }

  /** How many digits a number of 64 bits can have. */
  lemma {:induction false} NumeralLength(v: nat, base: nat, k: nat)
    requires 2 <= base <= 36 && v < Power(base, k) && k >= 1
    ensures |Numeral(v, base)| <= k
    decreases k
  {
    if v >= base {
      assert Power(base, 1) == base;
      DivBelow(v, base, Power(base, k - 1));
      NumeralLength(v / base, base, k - 1);
    }
  }

  lemma DivBelow(v: nat, b: nat, p: nat)
    requires b >= 1 && v < b * p
    ensures v / b < p
  {
    assert v == b * (v / b) + v % b;
    if v / b >= p {
      Bits.MulMonotone(b, p, v / b);
    }
  }

  lemma DivLess(v: nat, b: nat)
    requires b >= 2
    ensures v > 0 ==> v / b < v
  {
    if v > 0 {
      Bits.MulMonotone(v, 1, b);
      DivBelow(v, b, v);
    }
  }

  function Power(x: nat, y: nat): nat {
    if y == 0 then 1 else x * Power(x, y - 1)
  }

  lemma DivDiv(v: nat, b: nat, p: nat)
    requires b > 0 && p > 0
    ensures b * p > 0 && v / b / p == v / (b * p)
  {
    var q, r, t, u := v / b, v % b, v / b / p, v / b % p;
    Euclid(v, b);
    Euclid(q, p);
    Bits.MulMonotone(b, 1, p);
    DivBoth(v, b, p, q, r, t, u);
  }

  lemma DivBoth(v: nat, b: nat, p: nat, q: nat, r: nat, t: nat, u: nat)
    requires v == q * b + r && q == t * p + u && r < b && u < p
    ensures b * p > 0 && v / (b * p) == t
  {
    Bits.MulMonotone(b, 1, p);
    Expand(b, p, t, u);
    Bits.MulMonotone(b, u + 1, p);
    Expand(b, 1, u, 1);
    Bits.DivUnique(v, b * p, t, b * u + r);
  }

  lemma Expand(b: int, p: int, t: int, u: int)
    ensures b * (p * t + u) == b * p * t + b * u
  {}

  lemma {:induction false} PowerPositive(x: nat, y: nat)
    requires x > 0
    ensures Power(x, y) > 0
  {
    if y > 0 {
      PowerPositive(x, y - 1);
    }
  }

  /** The character of the digit of v that stands for base to the j. */
  function Figure(v: nat, base: nat, j: nat): char
    requires 2 <= base <= 36
  {
    PowerPositive(base, j);
    ALPHABET[v / Power(base, j) % base]
  }

  /** The text is v written in the base, with the least number of digits that is not below the length
      and not zero. */
  ghost predicate Written(s: string, v: nat, base: nat, length: nat)
    requires 2 <= base <= 36
  {
    && (forall k: nat | k < |s| :: s[k] == Figure(v, base, |s| - 1 - k))
    && |s| >= 1 && |s| >= length && v < Power(base, |s|)
    && (|s| > 1 && |s| > length ==> Power(base, |s| - 1) <= v)
  }

  lemma FigureNext(v: nat, base: nat, j: nat)
    requires 2 <= base <= 36
    ensures Figure(v, base, j + 1) == Figure(v / base, base, j)
  {
    PowerPositive(base, j);
    DivDiv(v, base, Power(base, j));
  }

  lemma PowerNext(v: nat, base: nat, j: nat)
    requires base > 0
    ensures v < Power(base, j + 1) <==> v / base < Power(base, j)
  {
    Euclid(v, base);
    if v / base < Power(base, j) {
      Bits.MulMonotone(base, v / base + 1, Power(base, j));
    } else {
      Bits.MulMonotone(base, Power(base, j), v / base);
    }
  }

  lemma {:induction false} NumeralWritten(v: nat, base: nat)
    requires 2 <= base <= 36
    ensures Written(Numeral(v, base), v, base, 0)
    decreases v
  {
    var s, r := Numeral(v, base), v % base;
    NumeralSplit(v, base);
    hide Numeral, DigitChar;
    DigitCharIs(r);
    assert Power(base, 0) == 1;
    assert Figure(v, base, 0) == ALPHABET[r];
    if v / base > 0 {
      DivLess(v, base);
      NumeralWritten(v / base, base);
      WriteMore(Numeral(v / base, base), v, base);
    } else {
      assert s == [DigitChar(r)];
      PowerNext(v, base, 0);
    }
  }

  /** One more figure at the end. */
  lemma WriteMore(t: string, v: nat, base: nat)
    requires 2 <= base <= 36 && v / base > 0 && Written(t, v / base, base, 0)
    ensures Written(t + [Figure(v, base, 0)], v, base, 0)
  {
    var s, n := t + [Figure(v, base, 0)], |t|;
    forall k: nat | k < |s| ensures s[k] == Figure(v, base, |s| - 1 - k) {
      if k < n {
        FigureNext(v, base, n - 1 - k);
      }
    }
    hide Figure;
    PowerNext(v, base, n);
    PowerNext(v, base, n - 1);
    assert Power(base, 0) == 1;
  }

  // ----- the printers -----

  function Reversed(s: string): (r: string)
    ensures |r| == |s|
  {
    if s == "" then "" else [s[|s| - 1]] + Reversed(s[..|s| - 1])
  }

  lemma {:induction false} ReversedAt(s: string, k: nat)
    requires k < |s|
    ensures Reversed(s)[k] == s[|s| - 1 - k]
  {
    if k > 0 {
      ReversedAt(s[..|s| - 1], k - 1);
    }
  }

  /** A string that reads backwards like another is its reversal. */
  lemma ReversedIs(s: string, r: string)
    requires |r| == |s| && forall k: nat | k < |s| :: r[k] == s[|s| - 1 - k]
    ensures r == Reversed(s)
  {
    forall k: nat | k < |s| ensures r[k] == Reversed(s)[k] {
      ReversedAt(s, k);
    }
  }

  lemma ReversedTwice(s: string)
    ensures Reversed(Reversed(s)) == s
  {
    forall k: nat | k < |s| ensures s[k] == Reversed(s)[|s| - 1 - k] {
      ReversedAt(s, |s| - 1 - k);
    }
    hide Reversed;
    ReversedIs(Reversed(s), s);
  }

  /** The reversal loop: p1 goes up and p2 down until they meet. */
  method ReverseInPlace(buffer: array<char>, n: nat)
    requires n <= buffer.Length
    modifies buffer
    ensures buffer[..n] == Reversed(old(buffer[..n])) && buffer[n..] == old(buffer[n..])
  {
    ghost var was := buffer[..n];
    var p1: nat, p2: int := 0, n - 1;
    while p1 < p2
      invariant p1 + p2 == n - 1 && p1 <= n && p2 >= p1 - 1
      invariant forall k: nat | k < p1 :: buffer[k] == was[n - 1 - k] && buffer[n - 1 - k] == was[k]
      invariant forall k: nat | p1 <= k <= p2 :: buffer[k] == was[k]
      invariant buffer[n..] == old(buffer[n..])
      decreases p2 - p1
    {
      var tmp := buffer[p1];
      buffer[p1] := buffer[p2];
      buffer[p2] := tmp;
      p1 := p1 + 1;
      p2 := p2 - 1;
    }
    ReversedIs(was, buffer[..n]);
  }

  /** The digit loop: the digits come out least significant first. */
  method Backwards(value: nat, buffer: array<char>, base: nat) returns (digits: nat)
    requires 2 <= base <= 36 && |Numeral(value, base)| <= buffer.Length
    modifies buffer
    ensures digits == |Numeral(value, base)| && buffer[..digits] == Reversed(Numeral(value, base))
  {
    digits := 0;
    var v: nat := value;
    var more := true;
    hide Numeral, Reversed, DigitChar;
    ghost var whole := Reversed(Numeral(value, base));
    while more
      invariant digits <= buffer.Length
      invariant whole == buffer[..digits] + if more then Reversed(Numeral(v, base)) else ""
      decreases more, v
    {
      v := PutDigit(v, base, buffer, digits, whole);
      digits := digits + 1;
      more := v != 0;
    }
  }

  /** One turn of the digit loop. */
  method PutDigit(v: nat, base: nat, buffer: array<char>, digits: nat, ghost whole: string) returns (q: nat)
    requires 2 <= base <= 36 && digits <= buffer.Length && |whole| <= buffer.Length
    requires whole == buffer[..digits] + Reversed(Numeral(v, base))
    modifies buffer
    ensures digits < buffer.Length && (v > 0 ==> q < v) && (v == 0 ==> q == 0)
    ensures whole == buffer[..digits + 1] + if q != 0 then Reversed(Numeral(q, base)) else ""
  {
    NumeralStep(v, base);
    DivLess(v, base);
    hide Numeral, Reversed, DigitChar;
    q := v / base;
    ghost var before, rest := buffer[..digits], if q == 0 then "" else Reversed(Numeral(q, base));
    var c := DigitChar(v % base);
    assert whole == before + ([c] + rest) == (before + [c]) + rest;
    Write(buffer, digits, c);
  }

  /** *p++ = c. */
  method Write(buffer: array<char>, p: nat, c: char)
    requires p < buffer.Length
    modifies buffer
    ensures buffer[..p + 1] == old(buffer[..p]) + [c]
  {
    buffer[p] := c;
  }

  lemma NumeralStep(v: nat, base: nat)
    requires 2 <= base <= 36
    ensures Reversed(Numeral(v, base)) ==
            [DigitChar(v % base)] + if v / base == 0 then "" else Reversed(Numeral(v / base, base))
    ensures |Numeral(v, base)| == 1 + if v / base == 0 then 0 else |Numeral(v / base, base)|
  {
    NumeralSplit(v, base);
    hide Numeral, DigitChar;
    ReversedSnoc(if v / base == 0 then "" else Numeral(v / base, base), DigitChar(v % base));
  }

  lemma SmallQuotient(v: nat, base: nat)
    requires base > 0
    ensures v / base == 0 <==> v < base
    ensures v < base ==> v % base == v
  {}

  lemma ReversedSnoc(t: string, c: char)
    ensures Reversed(t + [c]) == [c] + Reversed(t)
  {
    assert (t + [c])[..|t|] == t;
  }

  /** uintToBase. */
  method UintToBase(value: nat, buffer: array<char>, base: nat) returns (digits: nat)
    requires value < WORD64 && 2 <= base <= 36 && |Numeral(value, base)| < buffer.Length
    modifies buffer
    ensures digits == |Numeral(value, base)| && buffer[..digits] == Numeral(value, base) && buffer[digits] == '\0'
    ensures Written(buffer[..digits], value, base, 0)
  {
    hide Numeral, Reversed, Written;
    ReversedTwice(Numeral(value, base));
    NumeralWritten(value, base);
    digits := Backwards(value, buffer, base);
    Terminate(buffer, digits);
  }

  /** A numeral filled up with zeros to a length. */
  function Padded(s: string, length: nat): string {
    if |s| < length then Zeros(length - |s|) + s else s
  }

  lemma {:induction false} PowerGrows(x: nat, y: nat, z: nat)
    requires x > 0 && y <= z
    ensures Power(x, y) <= Power(x, z)
    decreases z
  {
    if y < z {
      PowerGrows(x, y, z - 1);
      PowerPositive(x, z - 1);
      Bits.MulMonotone(Power(x, z - 1), 1, x);
    }
  }

  /** In front of the first figure there are zeros. */
  lemma FigureZero(v: nat, base: nat, n: nat, j: nat)
    requires 2 <= base <= 36 && v < Power(base, n) && n <= j
    ensures Figure(v, base, j) == '0' && v < Power(base, j)
  {
    PowerGrows(base, n, j);
    PowerPositive(base, j);
    SmallQuotient(v, Power(base, j));
  }

  lemma PaddedWritten(s: string, v: nat, base: nat, length: nat)
    requires 2 <= base <= 36 && Written(s, v, base, 0)
    ensures Written(Padded(s, length), v, base, length)
  {
    var t := Padded(s, length);
    forall k: nat | k < |t| ensures t[k] == Figure(v, base, |t| - 1 - k) {
      if |t| - 1 - k >= |s| {
        FigureZero(v, base, |s|, |t| - 1 - k);
      }
    }
    hide Figure;
    FigureZero(v, base, |s|, |t|);
  }

  /** uintToBaseWL. */
  method UintToBaseWL(value: nat, buffer: array<char>, base: nat, length: nat) returns (digits: nat)
    requires value < WORD64 && 2 <= base <= 36 && |Padded(Numeral(value, base), length)| < buffer.Length
    modifies buffer
    ensures digits == |Padded(Numeral(value, base), length)|
    ensures buffer[..digits] == Padded(Numeral(value, base), length) && buffer[digits] == '\0'
    ensures Written(buffer[..digits], value, base, length)
  {
    ghost var t := Numeral(value, base);
    PaddedReversed(t, Reversed(t), length);
    hide Numeral, Padded, Reversed, Zeros, Written;
    NumeralWritten(value, base);
    PaddedWritten(t, value, base, length);
    digits := Backwards(value, buffer, base);
    digits := Fill(buffer, digits, length);
    Terminate(buffer, digits);
  }

  /** What both printers end with: the terminator, and the reversal. */
  method Terminate(buffer: array<char>, digits: nat)
    requires digits < buffer.Length
    modifies buffer
    ensures buffer[..digits] == Reversed(old(buffer[..digits])) && buffer[digits] == '\0'
  {
    ghost var was := buffer[..digits];
    buffer[digits] := '\0';
    assert buffer[..digits] == was;
    ReverseInPlace(buffer, digits);
    assert buffer[digits] == buffer[digits..][0];
  }

  /** The loop that fills up with zeros. */
  method Fill(buffer: array<char>, n: nat, length: nat) returns (digits: nat)
    requires n <= buffer.Length && length <= buffer.Length
    modifies buffer
    ensures digits == (if n < length then length else n) && buffer[..digits] == old(buffer[..n]) + Zeros(digits - n)
  {
    digits := n;
    while digits < length
      invariant n <= digits && (digits <= length || digits == n)
      invariant buffer[..digits] == old(buffer[..n]) + Zeros(digits - n)
    {
      Write(buffer, digits, '0');
      assert Zeros(digits - n) + ['0'] == Zeros(digits + 1 - n);
      digits := digits + 1;
    }
  }

  lemma PaddedReversed(t: string, s: string, length: nat)
    requires s == Reversed(t)
    ensures |Padded(t, length)| == if |t| < length then length else |t|
    ensures Reversed(s + Zeros(|Padded(t, length)| - |s|)) == Padded(t, length)
  {
    var z := if |t| < length then length - |t| else 0;
    assert Padded(t, length) == Zeros(z) + t;
    ReversedConcat(s, Zeros(z));
    ReversedZeros(z);
    ReversedTwice(t);
    hide Reversed;
  }

  lemma {:induction false} ReversedConcat(a: string, b: string)
    ensures Reversed(a + b) == Reversed(b) + Reversed(a)
  {
    if b == "" {
      assert a + b == a;
    } else {
      var c := b[|b| - 1];
      assert (a + b)[..|a + b| - 1] == a + b[..|b| - 1];
      ReversedConcat(a, b[..|b| - 1]);
    }
  }

  lemma {:induction false} ReversedZeros(n: nat)
    ensures Reversed(Zeros(n)) == Zeros(n)
  {
    if n > 0 {
      assert Zeros(n)[..n - 1] == Zeros(n - 1);
      ReversedZeros(n - 1);
      assert ['0'] + Zeros(n - 1) == Zeros(n);
    }
  }

  // ----- the parsers -----

  /** The text of a C string. */
  predicate Terminated(str: array<char>, n: nat)
    reads str
  {
    n < str.Length && str[n] == '\0' && forall k: nat | k < n :: str[k] != '\0'
  }

  /** strToInt of the kernel: on anything but digits it reports an error and returns all ones. */
  method StrToInt(str: array<char>, ghost n: nat) returns (num: nat, error: bool)
    requires Terminated(str, n)
    ensures error <==> exists k: nat :: k < n && !IsDigit(str[k])
    ensures if error then num == WORD64 - 1 else num == Value(str[..n], 10) % WORD64
  {
    num, error := 0, false;
    var i: nat := 0;
    while str[i] != '\0'
      invariant i <= n && forall k: nat | k < i :: IsDigit(str[k])
      invariant num == Value(str[..i], 10) % WORD64
      decreases n - i
    {
      if IsDigit(str[i]) {
        assert str[..i + 1][..i] == str[..i];
        WrapStep(Value(str[..i], 10), 10, DigitOf(str[i]));
        num := num * 10 % WORD64;
        num := (num + DigitOf(str[i])) % WORD64;
        i := i + 1;
      } else {
        return WORD64 - 1, true;
      }
    }
  }

  lemma WrapStep(a: nat, b: nat, d: nat)
    ensures (a % WORD64 * b % WORD64 + d) % WORD64 == (a * b + d) % WORD64
  {
    MulMod(a, b, WORD64);
    AddMod(a * b, d, WORD64);
  }

  lemma AddMod(a: nat, b: nat, m: nat)
    requires m > 0
    ensures (a % m + b) % m == (a + b) % m
  {
    assert a == m * (a / m) + a % m;
    ModShift(a % m + b, a / m, m);
  }

  lemma MulMod(a: nat, b: nat, m: nat)
    requires m > 0
    ensures a % m * b % m == a * b % m
  {
    assert a == m * (a / m) + a % m;
    assert a * b == (a % m) * b + m * ((a / m) * b);
    ModShift(a % m * b, a / m * b, m);
  }

  lemma ModShift(x: nat, k: nat, m: nat)
    requires m > 0
    ensures (x + m * k) % m == x % m
  {
    assert x == m * (x / m) + x % m;
    assert m * (x / m + k) == m * (x / m) + m * k;
    Bits.DivUnique(x + m * k, m, x / m + k, x % m);
  }

  /** A 64-bit number kept in an int, and taken out of it again: the low 32 bits, with their sign. */
  function IntOf(x: nat): nat {
    var low := x % 0x1_0000_0000;
    if low < 0x8000_0000 then low else low + WORD64 - 0x1_0000_0000
  }

  /** The sign is extended: one of the numbers up to 2^31, or of the 2^31 highest words. */
  lemma IntExtends(x: nat)
    ensures IntOf(x) % 0x1_0000_0000 == x % 0x1_0000_0000 && IntOf(x) < WORD64
    ensures IntOf(x) < 0x8000_0000 || IntOf(x) >= WORD64 - 0x8000_0000
  {}

  /** pow of user space, by repeated multiplication; the factor is kept in an int, which is right for
      numbers that fit. */
  method Pow(x: nat, y: nat) returns (r: nat)
    requires x < WORD64 && y < 0x8000_0000
    ensures r == if y == 0 then 1 else x * Power(IntOf(x), y - 1) % WORD64
    ensures x < 0x8000_0000 ==> r == Power(x, y) % WORD64
  {
    if y == 0 {
      return 1;
    }
    var aux := IntOf(x);
    r := x;
    var i: nat := 1;
    assert x * Power(aux, 0) == x;
    while i < y
      invariant 1 <= i <= y && r == x * Power(aux, i - 1) % WORD64
    {
      MulMod(x * Power(aux, i - 1), aux, WORD64);
      OneFactor(x, aux, i);
      r := r * aux % WORD64;
      i := i + 1;
    }
  }

  lemma OneFactor(x: nat, aux: nat, i: nat)
    requires i >= 1
    ensures x * Power(aux, i - 1) * aux == x * Power(aux, i)
  {
    assert Power(aux, i) == aux * Power(aux, i - 1);
  }

  /** strToHex of user space: each digit is added with its weight. */
  method StrToHex(str: array<char>, n: nat) returns (num: nat, error: bool)
    requires Terminated(str, n) && n < 0x8000_0000
    ensures error <==> exists k: nat :: k < n && !IsHex(str[k])
    ensures if error then num == 0 else num == Value(str[..n], 16) % WORD64
  {
    num, error := 0, false;
    var len: int := n - 1;
    var i: nat := 0;
    while str[i] != '\0'
      invariant i <= n && len == n - 1 - i && forall k: nat | k < i :: IsHex(str[k])
      invariant num == Value(str[..i], 16) * Power(16, n - i) % WORD64
      decreases n - i
    {
      if !IsHex(str[i]) {
        return 0, true;
      }
      var val := DigitOf(str[i]);
      var weight := Pow(16, len);
      assert str[..i + 1][..i] == str[..i];
      HexStep(Value(str[..i], 16), val, Power(16, len));
      num := (num + val * weight % WORD64) % WORD64;
      len := len - 1;
      i := i + 1;
    }
    assert Power(16, 0) == 1;
  }

  lemma HexStep(a: nat, d: nat, p: nat)
    ensures (a * (16 * p) % WORD64 + d * (p % WORD64) % WORD64) % WORD64 == (a * 16 + d) * p % WORD64
  {
    MulMod(p, d, WORD64);
    AddMod(a * (16 * p), d * p % WORD64, WORD64);
    AddMod(d * p, a * (16 * p), WORD64);
    assert (a * 16 + d) * p == a * (16 * p) + d * p;
  }

  // ----- printing and parsing -----

  /** strToInt undoes uintToBase and uintToBaseWL in base 10, with no error and no overflow on the way. */
  lemma DecimalRoundTrip(v: nat, length: nat)
    requires v < WORD64
    ensures var s := Padded(Numeral(v, 10), length);
            && (forall k: nat | k < |s| :: IsDigit(s[k]))
            && Value(s, 10) % WORD64 == v
            && forall k: nat | k <= |s| :: Value(s[..k], 10) < WORD64
  {
    hide Numeral, Value, Padded;
    NumeralValue(v, 10);
    PaddedValue(Numeral(v, 10), length);
    PrefixesSmall(Padded(Numeral(v, 10), length));
  }

  /** Padding keeps the value. */
  lemma PaddedValue(s: string, length: nat)
    requires forall k: nat | k < |s| :: IsDigit(s[k])
    ensures forall k: nat | k < |Padded(s, length)| :: IsDigit(Padded(s, length)[k])
    ensures Value(Padded(s, length), 10) == Value(s, 10)
  {
    hide Value;
    ZerosValue(if |s| < length then length - |s| else 0, s, 10);
  }

  lemma PrefixesSmall(s: string)
    requires (forall k: nat | k < |s| :: IsDigit(s[k])) && Value(s, 10) < WORD64
    ensures forall k: nat | k <= |s| :: Value(s[..k], 10) < WORD64
  {
    hide Value;
    forall k: nat | k <= |s| ensures Value(s[..k], 10) < WORD64 {
      PrefixValue(s, k, 10);
    }
  }

  /** strToHex undoes uintToBase in base 16. */
  lemma HexRoundTrip(v: nat)
    requires v < WORD64
    ensures var s := Numeral(v, 16);
            (forall k: nat | k < |s| :: IsHex(s[k])) && Value(s, 16) % WORD64 == v && |s| <= 16
  {
    NumeralValue(v, 16);
    assert Power(16, 16) == WORD64 by { PowerOf16(); }
    NumeralLength(v, 16, 16);
  }

  lemma PowerOf16()
    ensures Power(16, 16) == WORD64
  {
    assert Power(16, 4) == 0x1_0000;
    assert Power(16, 8) == 0x1_0000_0000;
    assert Power(16, 12) == 0x1_0000_0000_0000;
  }

  /** Printed by either decimal printer of the kernel and parsed again, in the same buffer, a number comes
      back. */
  method PrintAndParseDecimal(v: nat, buffer: array<char>, length: nat, padded: bool) returns (w: nat, error: bool)
    requires v < WORD64 && |Numeral(v, 10)| < buffer.Length && (padded ==> length < buffer.Length)
    modifies buffer
    ensures w == v && !error
  {
    DecimalRoundTrip(v, 0);
    DecimalRoundTrip(v, length);
    ghost var s := if padded then Padded(Numeral(v, 10), length) else Numeral(v, 10);
    hide Numeral, Value, Zeros;
    var digits: nat;
    if padded {
      digits := UintToBaseWL(v, buffer, 10, length);
    } else {
      digits := UintToBase(v, buffer, 10);
    }
    assert forall k: nat | k < digits :: buffer[k] == s[k];
    w, error := StrToInt(buffer, digits);
  }

  /** Printed and parsed again, in the same buffer, a number comes back. */
  method PrintAndParse(v: nat, buffer: array<char>) returns (w: nat, error: bool)
    requires v < WORD64 && |Numeral(v, 16)| < buffer.Length
    modifies buffer
    ensures w == v && !error
  {
    var digits := UintToBase(v, buffer, 16);
    HexRoundTrip(v);
    assert forall k: nat | k < digits :: buffer[k] == Numeral(v, 16)[k];
    w, error := StrToHex(buffer, digits);
  }
}
