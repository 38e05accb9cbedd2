/** A 26-entry wiring table (input letter index to output letter index) and the
    pair-swapping construction used by the plugboard and the reflector. */
module Wirings {
  import opened Alphabet

  /** Two letters wired to each other. */
  datatype Pair = Pair(first: int, second: int)

  predicate PairsInRange(ps: seq<Pair>) {
    forall k :: 0 <= k < |ps| ==> InRange(ps[k].first) && InRange(ps[k].second)
  }

  /** The two pairs have a letter in common. */
  predicate Shares(p: Pair, q: Pair) {
    p.first == q.first || p.first == q.second || p.second == q.first || p.second == q.second
  }

  /** No pair joins a letter to itself and no letter is in two pairs. */
  predicate PairsDisjoint(ps: seq<Pair>) {
    && (forall k :: 0 <= k < |ps| ==> ps[k].first != ps[k].second)
    && (forall j, k :: 0 <= j < k < |ps| ==> !Shares(ps[j], ps[k]))
  }

  /** Letter `x` appears in some pair. */
  predicate Named(ps: seq<Pair>, x: int) {
    exists k :: 0 <= k < |ps| && (ps[k].first == x || ps[k].second == x)
  }

  /** The letters of the pairs, in order. */
  function Flatten(ps: seq<Pair>): (s: seq<int>)
    ensures |s| == 2 * |ps|
  {
    seq(2 * |ps|, i requires 0 <= i < 2 * |ps| => if i % 2 == 0 then ps[i / 2].first else ps[i / 2].second)
  }

  /** The table after writing both directions of each pair, first pair first. */
  function ApplyPairs(m: seq<int>, ps: seq<Pair>): (r: seq<int>)
    requires |m| == AlphabetLength && PairsInRange(ps)
    ensures |r| == AlphabetLength
  {
    if ps == [] then m
    else
      var p := ps[|ps| - 1];
      ApplyPairs(m, ps[..|ps| - 1])[p.first := p.second][p.second := p.first]
  }

  /** Writing in-range pairs into a table over the alphabet leaves a table over the alphabet. */
  lemma {:induction false} ApplyPairsKeepsTable(m: seq<int>, ps: seq<Pair>)
    requires IsTable(m) && PairsInRange(ps)
    ensures IsTable(ApplyPairs(m, ps))
  {
    if ps != [] {
      var init := ps[..|ps| - 1];
      assert forall k :: 0 <= k < |init| ==> init[k] == ps[k];
      ApplyPairsKeepsTable(m, init);
    }
  }

  /** Letters named in no pair keep their previous entry. */
  lemma {:induction false} ApplyPairsKeepsUnnamed(m: seq<int>, ps: seq<Pair>, x: int)
    requires |m| == AlphabetLength && PairsInRange(ps)
    requires 0 <= x < AlphabetLength && !Named(ps, x)
    ensures ApplyPairs(m, ps)[x] == m[x]
  {
    if ps != [] {
      var init := ps[..|ps| - 1];
      assert forall k :: 0 <= k < |init| ==> init[k] == ps[k];
      ApplyPairsKeepsUnnamed(m, init, x);
    }
  }

  /** With disjoint pairs, each pair's letters end up wired to each other. */
  lemma {:induction false} ApplyPairsWiresPair(m: seq<int>, ps: seq<Pair>, k: int)
    requires |m| == AlphabetLength && PairsInRange(ps) && PairsDisjoint(ps)
    requires 0 <= k < |ps|
    ensures ApplyPairs(m, ps)[ps[k].first] == ps[k].second
    ensures ApplyPairs(m, ps)[ps[k].second] == ps[k].first
  {
    var init := ps[..|ps| - 1];
    if k < |ps| - 1 {
      assert ps[k] == init[k];
      assert PairsDisjoint(init) by {
        forall i, j | 0 <= i < j < |init| ensures !Shares(init[i], init[j]) {
          assert init[i] == ps[i] && init[j] == ps[j];
        }
      }
      ApplyPairsWiresPair(m, init, k);
      assert !Shares(ps[k], ps[|ps| - 1]);
    }
  }

  /** Disjoint pairs over the identity give an involution that fixes every unnamed letter. */
  lemma PairsOnIdentity(ps: seq<Pair>)
    requires PairsInRange(ps) && PairsDisjoint(ps)
    ensures IsInvolution(ApplyPairs(Identity(), ps))
    ensures forall x :: 0 <= x < AlphabetLength && !Named(ps, x) ==> ApplyPairs(Identity(), ps)[x] == x
    ensures forall x :: 0 <= x < AlphabetLength && Named(ps, x) ==> ApplyPairs(Identity(), ps)[x] != x
  {
    var r := ApplyPairs(Identity(), ps);
    forall x | 0 <= x < AlphabetLength
      ensures InRange(r[x]) && r[r[x]] == x
      ensures !Named(ps, x) ==> r[x] == x
      ensures Named(ps, x) ==> r[x] != x
    {
      if Named(ps, x) {
        var k :| 0 <= k < |ps| && (ps[k].first == x || ps[k].second == x);
        ApplyPairsWiresPair(Identity(), ps, k);
      } else {
        ApplyPairsKeepsUnnamed(Identity(), ps, x);
      }
    }
  }

  lemma FlattenDistinct(ps: seq<Pair>)
    requires PairsInRange(ps) && PairsDisjoint(ps)
    ensures Distinct(Flatten(ps)) && AllInRange(Flatten(ps))
  {
    var s := Flatten(ps);
    forall i, j | 0 <= i < j < |s| ensures s[i] != s[j] {
      if i / 2 == j / 2 {
        assert i % 2 == 0 && j % 2 == 1;
      } else {
        assert i / 2 < j / 2;
        assert !Shares(ps[i / 2], ps[j / 2]);
      }
    }
  }

  /** Thirteen disjoint pairs name all 26 letters. */
  lemma ThirteenPairsNameEveryLetter(ps: seq<Pair>, x: int)
    requires PairsInRange(ps) && PairsDisjoint(ps) && |ps| == AlphabetLength / 2
    requires InRange(x)
    ensures Named(ps, x)
  {
    var s := Flatten(ps);
    FlattenDistinct(ps);
    PermutationCovers(s, x);
    var i :| 0 <= i < |s| && s[i] == x;
    assert ps[i / 2].first == x || ps[i / 2].second == x;
  }

  /** Thirteen disjoint pairs over the identity give an involution without fixed points. */
  lemma ThirteenPairsOnIdentity(ps: seq<Pair>)
    requires PairsInRange(ps) && PairsDisjoint(ps) && |ps| == AlphabetLength / 2
    ensures IsInvolution(ApplyPairs(Identity(), ps))
    ensures IsDerangement(ApplyPairs(Identity(), ps))
  {
    PairsOnIdentity(ps);
    forall x | 0 <= x < AlphabetLength ensures Named(ps, x) {
      ThirteenPairsNameEveryLetter(ps, x);
    }
  }

  /** One 26-entry table, updated in place. */
  class Wiring {
    var mapping: seq<int>

    predicate Valid()
      reads this
    {
      |mapping| == AlphabetLength
    }

    /** Every letter maps to itself. */
    constructor ()
      ensures Valid() && mapping == Identity()
    {
      mapping := [];
      new;
      var i := 0;
      while i < AlphabetLength
        invariant 0 <= i <= AlphabetLength && mapping == seq(i, k => k)
      {
        mapping := mapping + [i];
        i := i + 1;
      }
    }

    /** Copies a whole table; the caller supplies a permutation. */
    method SetUpFull(wiresToSwap: seq<int>)
      requires Valid() && |wiresToSwap| == AlphabetLength
      modifies this
      ensures mapping == wiresToSwap
    {
      for i := 0 to AlphabetLength
        invariant |mapping| == AlphabetLength
        invariant forall k :: 0 <= k < i ==> mapping[k] == wiresToSwap[k]
      {
        mapping := mapping[i := wiresToSwap[i]];
      }
    }

    /** Wires each pair both ways, in order; unnamed entries are left as they were. */
    method SetUpPairs(wiresToSwap: seq<Pair>)
      requires Valid() && PairsInRange(wiresToSwap)
      modifies this
      ensures mapping == ApplyPairs(old(mapping), wiresToSwap)
    {
      for i := 0 to |wiresToSwap|
        invariant mapping == ApplyPairs(old(mapping), wiresToSwap[..i])
      {
        assert wiresToSwap[..i + 1][..i] == wiresToSwap[..i];
        mapping := mapping[wiresToSwap[i].first := wiresToSwap[i].second];
        mapping := mapping[wiresToSwap[i].second := wiresToSwap[i].first];
      }
      assert wiresToSwap[..|wiresToSwap|] == wiresToSwap;
    }

    /** The letter `inputLetter` is wired to; a table over the alphabet gives a letter index. */
    function GetOutputLetter(inputLetter: int): (r: int)
      requires Valid() && 0 <= inputLetter < AlphabetLength
      reads this
      ensures IsTable(mapping) ==> InRange(r)
      ensures r in mapping
    {
      mapping[inputLetter]
    }

    /** Overwrites one entry; every other entry is unchanged. */
    method SetOutputLetter(inputLetter: int, outputLetter: int)
      requires Valid() && 0 <= inputLetter < AlphabetLength
      modifies this
      ensures mapping == old(mapping)[inputLetter := outputLetter]
    {
      mapping := mapping[inputLetter := outputLetter];
    }
  }
}
