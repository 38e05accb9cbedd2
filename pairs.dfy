/** Reading a plugboard or reflector file: a list of letter pairs, each checked as it is read.
    The plugboard and the reflector read their files with the same loop and differ only in
    the error code for a bad pair and in how many values they accept. */
module PairReading {
  import opened Alphabet
  import opened Errors
  import opened Wirings

  /** At most 13 pairs are read from a file. */
  const MaxPairs: int := AlphabetLength / 2

  /** The tokens taken two at a time; a trailing odd token belongs to no pair. */
  function TokenPairs(tokens: seq<int>): (ps: seq<Pair>)
    ensures |ps| == |tokens| / 2
    ensures Flatten(ps) == tokens[..2 * (|tokens| / 2)]
  {
    seq(|tokens| / 2, k requires 0 <= k < |tokens| / 2 => PairAt(tokens, k))
  }

  /** Pair `k` of the file: tokens 2k and 2k+1. */
  function PairAt(tokens: seq<int>, k: nat): (p: Pair)
    requires 2 * k + 1 < |tokens|
  {
    Pair(tokens[2 * k], tokens[2 * k + 1])
  }

  /** The pairs the reading loop gets to: all complete pairs, but no more than 13. */
  function PairsRead(tokens: seq<int>): (ps: seq<Pair>)
    ensures |ps| == Min(MaxPairs, |tokens| / 2) && 2 * |ps| <= |tokens|
  {
    TokenPairs(tokens)[..Min(MaxPairs, |tokens| / 2)]
  }

  /** Pair `size` shares a letter with one of the pairs before it. */
  function CheckPairRepeat(ps: seq<Pair>, size: nat, mappingError: Status): (r: Status)
    requires size < |ps| && mappingError != NoError
    ensures r == NoError || r == mappingError
    ensures r == mappingError <==> exists i :: 0 <= i < size && Shares(ps[size], ps[i])
  {
    CheckPairRepeatFrom(ps, size, 0, mappingError)
  }

  function CheckPairRepeatFrom(ps: seq<Pair>, size: nat, from: nat, mappingError: Status): (r: Status)
    requires from <= size < |ps| && mappingError != NoError
    ensures r == NoError || r == mappingError
    ensures r == mappingError <==> exists i :: from <= i < size && Shares(ps[size], ps[i])
    decreases size - from
  {
    if from == size then NoError
    else if Shares(ps[size], ps[from]) then mappingError
    else CheckPairRepeatFrom(ps, size, from + 1, mappingError)
  }

  /** The checks on one pair, in the order they are made: a letter joined to itself,
      then the range of each letter, then a letter already used by an earlier pair. */
  function CheckPair(ps: seq<Pair>, size: nat, mappingError: Status): (r: Status)
    requires size < |ps| && mappingError != NoError
    ensures r == NoError || r == InvalidIndex || r == mappingError
    ensures r == NoError <==>
      && ps[size].first != ps[size].second
      && InRange(ps[size].first) && InRange(ps[size].second)
      && forall i :: 0 <= i < size ==> !Shares(ps[size], ps[i])
  {
    var p := ps[size];
    if p.first == p.second then mappingError
    else if CheckIndex(p.first) != NoError then InvalidIndex
    else if CheckIndex(p.second) != NoError then InvalidIndex
    else CheckPairRepeat(ps, size, mappingError)
  }

  /** The first error met when the pairs are checked one by one. */
  function ScanPairs(ps: seq<Pair>, mappingError: Status): (r: Status)
    requires mappingError != NoError
    ensures r == NoError || r == InvalidIndex || r == mappingError
  {
    if ps == [] then NoError
    else
      var e := ScanPairs(ps[..|ps| - 1], mappingError);
      if e != NoError then e else CheckPair(ps, |ps| - 1, mappingError)
  }

  /** The scan succeeds exactly when every letter is in range, no pair joins a letter to itself and no letter is used twice. */
  lemma {:induction false} ScanPairsAccepts(ps: seq<Pair>, mappingError: Status)
    requires mappingError != NoError
    ensures ScanPairs(ps, mappingError) == NoError <==> PairsInRange(ps) && PairsDisjoint(ps)
  {
    if ps != [] {
      var init := ps[..|ps| - 1];
      assert forall i :: 0 <= i < |init| ==> init[i] == ps[i];
      ScanPairsAccepts(init, mappingError);
    }
  }

  /** Once a prefix has failed, the checks of later pairs do not change the outcome. */
  lemma {:induction false} ScanPairsKeepsFirstError(ps: seq<Pair>, k: nat, mappingError: Status)
    requires mappingError != NoError
    requires k <= |ps| && ScanPairs(ps[..k], mappingError) != NoError
    ensures ScanPairs(ps, mappingError) == ScanPairs(ps[..k], mappingError)
  {
    if k < |ps| {
      var init := ps[..|ps| - 1];
      assert init[..k] == ps[..k];
      ScanPairsKeepsFirstError(init, k, mappingError);
    } else {
      assert ps[..k] == ps;
    }
  }

  /** A pair joining a letter to itself is reported with the pair error code, even when the letter is out of range. */
  lemma SelfPairFirst(ps: seq<Pair>, mappingError: Status)
    requires mappingError != NoError && |ps| > 0 && ps[0].first == ps[0].second
    ensures ScanPairs(ps, mappingError) == mappingError
  {
    ScanPairsKeepsFirstError(ps, 1, mappingError);
  }

  /** When the loop stops without an error, it has read every pair it gets to. */
  lemma PairsReadCount(n: nat, size: nat)
    requires size <= MaxPairs && 2 * size <= n
    requires 2 * size + 2 > n || size == MaxPairs
    ensures size == Min(MaxPairs, n / 2)
  {
  }

  /** Reading one more pair extends the pairs read so far by the next two tokens. */
  lemma TokenPairsSnoc(tokens: seq<int>, size: nat)
    requires 2 * size + 2 <= |tokens|
    ensures TokenPairs(tokens)[..size] + [PairAt(tokens, size)] == TokenPairs(tokens)[..size + 1]
  {
  }

  /** Checking one more pair: an earlier error stands, otherwise the new pair is checked. */
  lemma ScanPairsSnoc(ps: seq<Pair>, p: Pair, mappingError: Status)
    requires mappingError != NoError
    ensures ScanPairs(ps + [p], mappingError) ==
      if ScanPairs(ps, mappingError) != NoError then ScanPairs(ps, mappingError)
      else CheckPair(ps + [p], |ps|, mappingError)
  {
    assert (ps + [p])[..|ps|] == ps;
  }

  /** A pair that fails its checks decides the outcome of the whole scan. */
  lemma FirstBadPair(tokens: seq<int>, size: nat, mappingError: Status)
    requires mappingError != NoError
    requires size < MaxPairs && 2 * size + 2 <= |tokens|
    requires ScanPairs(TokenPairs(tokens)[..size], mappingError) == NoError
    requires CheckPair(TokenPairs(tokens)[..size + 1], size, mappingError) != NoError
    ensures ScanPairs(PairsRead(tokens), mappingError) == CheckPair(TokenPairs(tokens)[..size + 1], size, mappingError)
  {
    var read := PairsRead(tokens);
    assert read[..size + 1] == TokenPairs(tokens)[..size + 1];
    assert TokenPairs(tokens)[..size + 1][..size] == TokenPairs(tokens)[..size];
    ScanPairsKeepsFirstError(read, size + 1, mappingError);
  }

  /** The reading loop: pairs are read while two more values are present and fewer than 13 pairs have been read;
      each pair is checked before the next is read. `inIsOpen` records whether a value followed the last pair read. */
  method ReadPairs(tokens: seq<int>, mappingError: Status) returns (status: Status, pairs: seq<Pair>, inIsOpen: bool)
    requires tokens != [] && mappingError != NoError
    ensures status == ScanPairs(PairsRead(tokens), mappingError)
    ensures status == NoError ==> pairs == PairsRead(tokens) && (inIsOpen <==> 2 * |pairs| < |tokens|)
  {
    pairs := [];
    inIsOpen := true;
    var inOk := 2 <= |tokens|;
    var size := 0;
    while inOk && size < MaxPairs
      invariant 0 <= size <= MaxPairs && 2 * size <= |tokens|
      invariant inOk <==> 2 * size + 2 <= |tokens|
      invariant inIsOpen <==> size == 0 || 2 * size < |tokens|
      invariant pairs == TokenPairs(tokens)[..size]
      invariant ScanPairs(pairs, mappingError) == NoError
    {
      TokenPairsSnoc(tokens, size);
      ScanPairsSnoc(pairs, PairAt(tokens, size), mappingError);
      pairs := pairs + [Pair(tokens[2 * size], tokens[2 * size + 1])];
      var pairError := CheckPair(pairs, size, mappingError);
      if pairError != NoError {
        FirstBadPair(tokens, size, mappingError);
        return pairError, pairs, inIsOpen;
      }
      inIsOpen := 2 * size + 2 < |tokens|;
      inOk := 2 * size + 4 <= |tokens|;
      size := size + 1;
    }
    PairsReadCount(|tokens|, size);
    return NoError, pairs, inIsOpen;
  }
}
