/** Letter indices 0..25 and the properties of 26-entry tables over them. */
module Alphabet {

  const AlphabetLength: int := 26
  const AIndex: int := 0
  const ZIndex: int := 25

  function Min(a: int, b: int): (m: int) {
    if a < b then a else b
  }

  predicate InRange(x: int) {
    AIndex <= x <= ZIndex
  }

  predicate AllInRange(s: seq<int>) {
    forall i :: 0 <= i < |s| ==> InRange(s[i])
  }

  predicate Distinct(s: seq<int>) {
    forall i, j :: 0 <= i < j < |s| ==> s[i] != s[j]
  }

  /** A table over the alphabet: one letter index for each of the 26 letters. */
  predicate IsTable(t: seq<int>) {
    |t| == AlphabetLength && AllInRange(t)
  }

  predicate IsPermutation(t: seq<int>) {
    IsTable(t) && Distinct(t)
  }

  /** Applying the table twice gives back the letter. */
  predicate IsInvolution(t: seq<int>) {
    IsTable(t) && forall x :: 0 <= x < AlphabetLength ==> t[t[x]] == x
  }

  /** No letter is mapped to itself. */
  predicate IsDerangement(t: seq<int>) {
    IsTable(t) && forall x :: 0 <= x < AlphabetLength ==> t[x] != x
  }

  /** `b` undoes `f` and `f` undoes `b`. */
  predicate IsInversePair(f: seq<int>, b: seq<int>) {
    && IsTable(f) && IsTable(b)
    && (forall x {:trigger b[f[x]]} :: 0 <= x < AlphabetLength ==> b[f[x]] == x)
    && (forall y {:trigger f[b[y]]} :: 0 <= y < AlphabetLength ==> f[b[y]] == y)
  }

  function Identity(): (t: seq<int>)
    ensures IsTable(t)
    ensures forall x :: 0 <= x < AlphabetLength ==> t[x] == x
  {
    seq(AlphabetLength, i => i)
  }

  lemma InversePairArePermutations(f: seq<int>, b: seq<int>)
    requires IsInversePair(f, b)
    ensures IsPermutation(f) && IsPermutation(b)
    ensures IsInversePair(b, f)
  {
    forall i, j | 0 <= i < j < |f| ensures f[i] != f[j] {
      assert b[f[i]] == i && b[f[j]] == j;
    }
    forall i, j | 0 <= i < j < |b| ensures b[i] != b[j] {
      assert f[b[i]] == i && f[b[j]] == j;
    }
  }

  /** An involution is its own inverse. */
  lemma InvolutionIsSelfInverse(t: seq<int>)
    requires IsInvolution(t)
    ensures IsInversePair(t, t) && IsPermutation(t)
  {
    InversePairArePermutations(t, t);
  }

  lemma IdentityIsInvolution()
    ensures IsInvolution(Identity()) && IsInversePair(Identity(), Identity())
  {
  }

  // ---------------------------------------------------------------
  // Counting: 26 distinct letter indices use up the whole alphabet.
  // ---------------------------------------------------------------

  function Elements(s: seq<int>): (e: set<int>) {
    set i | 0 <= i < |s| :: s[i]
  }

  function Below(m: nat): (r: set<int>)
    ensures forall x :: x in r <==> 0 <= x < m
  {
    if m == 0 then {} else Below(m - 1) + {m - 1}
  }

  lemma {:induction false} ElementsOfDistinct(s: seq<int>)
    requires Distinct(s)
    ensures |Elements(s)| == |s|
  {
    if s != [] {
      var init := s[..|s| - 1];
      ElementsOfDistinct(init);
      assert Elements(s) == Elements(init) + {s[|s| - 1]};
      assert s[|s| - 1] !in Elements(init);
    }
  }

  lemma {:induction false} BelowSize(m: nat)
    ensures |Below(m)| == m
  {
    if m > 0 {
      BelowSize(m - 1);
    }
  }

  lemma SubsetSize(a: set<int>, b: set<int>)
    requires a <= b
    ensures |a| <= |b|
  {
    assert b == a + (b - a);
    assert a * (b - a) == {};
  }

  lemma RemoveSize(s: set<int>, y: int)
    requires y in s
    ensures |s - {y}| == |s| - 1
  {
    assert s == (s - {y}) + {y};
  }

  /** The letters of a table all lie in the alphabet. */
  lemma ElementsInAlphabet(t: seq<int>)
    requires IsTable(t)
    ensures Elements(t) <= Below(AlphabetLength)
  {
  }

  /** Pigeonhole: a permutation of the alphabet hits every letter. */
  lemma PermutationCovers(t: seq<int>, y: int)
    requires IsPermutation(t) && InRange(y)
    ensures exists i :: 0 <= i < |t| && t[i] == y
  {
    ElementsOfDistinct(t);
    if y !in Elements(t) {
      var rest := Below(AlphabetLength) - {y};
      ElementsInAlphabet(t);
      assert Elements(t) <= rest;
      BelowSize(AlphabetLength);
      RemoveSize(Below(AlphabetLength), y);
      SubsetSize(Elements(t), rest);
      assert false;
    }
  }

  // ---------------------------------------------------------------
  // The inverse of a permutation
  // ---------------------------------------------------------------

  /** The first position of `y` in `t`. */
  function IndexOf(t: seq<int>, y: int): (i: int)
    requires y in t
    ensures 0 <= i < |t| && t[i] == y
    ensures forall k :: 0 <= k < i ==> t[k] != y
  {
    if t[0] == y then 0
    else
      assert y in t[1..] by { assert t == [t[0]] + t[1..]; }
      1 + IndexOf(t[1..], y)
  }

  /** The table that sends each letter back to the position it occupies in `t`. */
  function InverseTable(t: seq<int>): (r: seq<int>)
    requires IsPermutation(t)
    ensures IsTable(r)
    ensures forall y :: 0 <= y < AlphabetLength ==> t[r[y]] == y
  {
    assert forall y :: InRange(y) ==> y in t by {
      forall y | InRange(y) ensures y in t {
        PermutationCovers(t, y);
      }
    }
    seq(AlphabetLength, y requires 0 <= y < AlphabetLength => IndexOf(t, y))
  }

  /** A permutation has exactly one inverse, and it is `InverseTable`. */
  lemma InverseIsUnique(f: seq<int>, b: seq<int>)
    requires IsPermutation(f)
    ensures IsInversePair(f, InverseTable(f))
    ensures IsInversePair(f, b) ==> b == InverseTable(f)
  {
    var r := InverseTable(f);
    forall x | 0 <= x < AlphabetLength ensures r[f[x]] == x {
      assert f[r[f[x]]] == f[x];
    }
    if IsInversePair(f, b) {
      forall y | 0 <= y < AlphabetLength ensures b[y] == r[y] {
        assert f[b[y]] == y == f[r[y]];
        assert b[f[r[y]]] == r[y];
      }
    }
  }
}
