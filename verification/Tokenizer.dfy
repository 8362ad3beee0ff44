/** tokenizeBuffer: the text is cut in place, each separator becoming a terminator, and the starts of
    the words are collected. Pointers into the text are indices. */
module Tokenizer {

  /** A word starts where a character that is not the separator follows one that is, or nothing. */
  predicate WordStart(t: string, token: char, i: nat) {
    i < |t| && t[i] != token && (i == 0 || t[i - 1] == token)
  }

  /** The word starts before position i, in order. */
  function Starts(t: string, token: char, i: nat): seq<nat> {
    if i == 0 then [] else Starts(t, token, i - 1) + if WordStart(t, token, i - 1) then [i - 1] else []
  }

  /** Where the word at i ends: at the next separator, or with the text. */
  function WordEnd(t: string, token: char, i: nat): (e: nat)
    requires i <= |t|
    ensures i <= e <= |t| && (e < |t| ==> t[e] == token) && forall k: nat | i <= k < e :: t[k] != token
    decreases |t| - i
  {
    if i == |t| || t[i] == token then i else WordEnd(t, token, i + 1)
  }

  /** Starts lists exactly the word starts, in increasing order. */
  lemma {:induction false} StartsAre(t: string, token: char, i: nat)
    ensures var s := Starts(t, token, i);
            && (forall p: nat :: p in s <==> p < i && WordStart(t, token, p))
            && forall a: nat, b: nat | a < b < |s| :: s[a] < s[b]
  {
    if i > 0 {
      StartsAre(t, token, i - 1);
      var s := Starts(t, token, i - 1);
      assert forall a: nat | a < |s| :: s[a] in s;
    }
  }

  lemma {:induction false} StartsGrow(t: string, token: char, i: nat, j: nat)
    requires i <= j
    ensures Starts(t, token, i) <= Starts(t, token, j)
  {
    if i < j {
      StartsGrow(t, token, i, j - 1);
    }
  }

  /** The word is maximal: it is the longest stretch around its start without a separator. */
  lemma WordMaximal(t: string, token: char, i: nat)
    requires WordStart(t, token, i)
    ensures var e := WordEnd(t, token, i);
            i < e && (i > 0 ==> t[i - 1] == token) && (e < |t| ==> t[e] == token) &&
            forall k: nat | i <= k < e :: t[k] != token
  {}

  /** Every character of the text that is not a separator is in exactly one word. */
  lemma {:induction false} InOneWord(t: string, token: char, k: nat) returns (i: nat)
    requires k < |t| && t[k] != token
    ensures i in Starts(t, token, |t|) && i <= k < WordEnd(t, token, i)
    ensures forall j | j in Starts(t, token, |t|) && j <= k < WordEnd(t, token, j) :: j == i
  {
    i := k;
    while i > 0 && t[i - 1] != token
      invariant i <= k && forall m: nat | i <= m <= k :: t[m] != token
    {
      i := i - 1;
    }
    StartsAre(t, token, |t|);
    forall j | j in Starts(t, token, |t|) && j <= k < WordEnd(t, token, j) ensures j == i {
      assert WordStart(t, token, j);
      assert j > 0 ==> t[j - 1] == token;
      assert i > 0 ==> t[i - 1] == token;
    }
  }

  /** What the text is cut to, up to position i. */
  ghost predicate CutTo(source: array<char>, t: string, token: char, i: nat)
    reads source
    requires |t| < source.Length
  {
    && (forall k: nat | k < i && k < |t| :: source[k] == if t[k] == token then '\0' else t[k])
    && (forall k: nat | i <= k < |t| :: source[k] == t[k])
    && source[|t|] == '\0'
  }

  /** Read as a C string, the text from s on is the word that starts there. */
  predicate ReadsAs(source: array<char>, s: nat, word: string)
    reads source
  {
    && s + |word| < source.Length && source[s + |word|] == '\0'
    && forall k: nat | k < |word| :: source[s + k] == word[k] && word[k] != '\0'
  }

  function Min(a: nat, b: nat): nat {
    if a < b then a else b
  }

  /** tokenizeBuffer. */
  method TokenizeBuffer(token: char, dest: array<nat>, source: array<char>, max: nat, ghost t: string)
    returns (index: nat)
    requires token != '\0' && 1 <= max <= dest.Length
    requires |t| < source.Length && source[..|t|] == t && source[|t|] == '\0' && '\0' !in t
    modifies dest, source
    ensures index == Min(max, |Starts(t, token, |t|)|) && dest[..index] == Starts(t, token, |t|)[..index]
    ensures forall k: nat | k < index ::
              dest[k] <= |t| && ReadsAs(source, dest[k], t[dest[k]..WordEnd(t, token, dest[k])])
    ensures forall k: nat | k < |t| :: source[k] == t[k] || (t[k] == token && source[k] == '\0')
  {
    hide Starts, WordEnd, ReadsAs, WordStart, CutTo;
    index := First(token, dest, source, t);
    var i: nat := 0;
    AtEnd(source, t, token, i);
    while source[i] != '\0'
      invariant i <= |t| && CutTo(source, t, token, i) && (source[i] == '\0' <==> i == |t|)
      invariant index <= max && dest[..index] == Starts(t, token, Min(i + 1, |t|))
      decreases |t| - i
    {
      var full;
      index, full := Step(token, dest, source, max, t, i, index);
      i := i + 1;
      if full {
        break;
      }
      AtEnd(source, t, token, i);
    }
    Finished(token, dest, source, max, t, i, index);
  }

  /** The word at the very start, if there is one. */
  method First(token: char, dest: array<nat>, source: array<char>, ghost t: string) returns (index: nat)
    requires |t| < source.Length && source[..|t|] == t && source[|t|] == '\0' && '\0' !in t && dest.Length > 0
    modifies dest
    ensures CutTo(source, t, token, 0) && index <= 1 && dest[..index] == Starts(t, token, Min(1, |t|))
  {
    StartsStep(t, token, 0);
    assert |t| > 0 ==> t[0] in t && source[0] == t[0];
    index := 0;
    if source[0] != token && source[0] != '\0' {
      dest[0] := 0;
      index := 1;
    }
  }

  lemma AtEnd(source: array<char>, t: string, token: char, i: nat)
    requires |t| < source.Length && i <= |t| && CutTo(source, t, token, i) && '\0' !in t
    ensures source[i] == '\0' <==> i == |t|
  {
    assert i < |t| ==> t[i] in t;
  }

  /** What has been collected when the loop ends, at the end of the text or for want of room. */
  lemma Finished(token: char, dest: array<nat>, source: array<char>, max: nat, t: string, i: nat, index: nat)
    requires |t| < source.Length && i <= |t| && CutTo(source, t, token, i) && '\0' !in t && index <= dest.Length
    requires i == |t| || (i > 0 && t[i - 1] == token)
    requires dest[..index] == Starts(t, token, i) && dest[..index] <= Starts(t, token, |t|)
    requires index == Min(max, |Starts(t, token, |t|)|)
    ensures dest[..index] == Starts(t, token, |t|)[..index]
    ensures forall k: nat | k < index ::
              dest[k] <= |t| && ReadsAs(source, dest[k], t[dest[k]..WordEnd(t, token, dest[k])])
    ensures forall k: nat | k < |t| :: source[k] == t[k] || (t[k] == token && source[k] == '\0')
  {
    hide Starts, WordEnd, ReadsAs, CutTo;
    AllRead(source, t, token, i);
    Collected(dest[..index], Starts(t, token, i));
  }

  /** One turn of the loop, which ends it when a word would be one too many. */
  method Step(token: char, dest: array<nat>, source: array<char>, max: nat, ghost t: string, i: nat, index: nat)
    returns (index': nat, full: bool)
    requires |t| < source.Length && i < |t| && CutTo(source, t, token, i) && '\0' !in t && token != '\0'
    requires index <= max <= dest.Length && dest[..index] == Starts(t, token, i + 1)
    modifies dest, source
    ensures CutTo(source, t, token, i + 1)
    ensures if full then
              index' == max && dest[..max] == Starts(t, token, i + 1) && t[i] == token
              && dest[..max] <= Starts(t, token, |t|) && |Starts(t, token, |t|)| > max
            else index' <= max && dest[..index'] == Starts(t, token, Min(i + 2, |t|))
  {
    index', full := index, false;
    StartsStep(t, token, i + 1);
    assert t[i] in t && (i + 1 < |t| ==> t[i + 1] in t);
    hide Starts;
    if source[i] == token {
      source[i] := '\0';
      if source[i + 1] != token && source[i + 1] != '\0' {
        if index >= max {
          StartsGrow(t, token, i + 1, |t|);
          StartsGrow(t, token, i + 2, |t|);
          full := true;
          return;
        }
        dest[index] := i + 1;
        index' := index + 1;
      }
    }
  }

  /** One position further, there is one more word or not. */
  lemma StartsStep(t: string, token: char, i: nat)
    ensures Starts(t, token, Min(i + 1, |t|)) ==
            if i < |t| then Starts(t, token, i) + if WordStart(t, token, i) then [i] else [] else Starts(t, token, |t|)
    ensures Starts(t, token, 0) == []
  {}

  lemma Collected(d: seq<nat>, s: seq<nat>)
    requires d == s
    ensures forall k: nat | k < |d| :: d[k] in s
  {}

  /** Once the text is cut up to a separator, or to its end, every word before reads as itself. */
  lemma AllRead(source: array<char>, t: string, token: char, i: nat)
    requires |t| < source.Length && i <= |t| && CutTo(source, t, token, i) && '\0' !in t
    requires i == |t| || (i > 0 && t[i - 1] == token)
    ensures forall s | s in Starts(t, token, i) :: s <= |t| && ReadsAs(source, s, t[s..WordEnd(t, token, s)])
    ensures forall k: nat | k < |t| :: source[k] == t[k] || (t[k] == token && source[k] == '\0')
  {
    StartsAre(t, token, i);
    forall s | s in Starts(t, token, i) ensures s <= |t| && ReadsAs(source, s, t[s..WordEnd(t, token, s)]) {
      var e := WordEnd(t, token, s);
      assert e <= i;
      assert forall k: nat | s <= k < e :: t[k] in t;
    }
  }
}
