/** The reflector: 13 pairs joining every letter to a different one, so that the signal can turn back. */
module Reflectors {
  import opened Alphabet
  import opened Errors
  import opened Wirings
  import opened PairReading

  /** The outcome of setting up a reflector: the first bad pair, else an error unless exactly 13 pairs and nothing more were read. */
  function ReflectorInputStatus(tokens: seq<int>): (r: Status)
    ensures r == NoError ==> PairsInRange(TokenPairs(tokens)) && PairsDisjoint(TokenPairs(tokens))
  {
    ScanPairsAccepts(PairsRead(tokens), InvalidReflectorMapping);
    var pairError := ScanPairs(PairsRead(tokens), InvalidReflectorMapping);
    if pairError != NoError then pairError
    else if |tokens| != AlphabetLength then IncorrectNumberOfReflectorParameters  // empty, too few, odd or too many
    else NoError
  }

  /** A reflector file is accepted exactly when it holds 26 in-range values forming 13 pairs that join
      no letter to itself and use no letter twice. */
  lemma ReflectorAccepted(tokens: seq<int>)
    ensures ReflectorInputStatus(tokens) == NoError <==>
      && |tokens| == AlphabetLength
      && PairsInRange(TokenPairs(tokens)) && PairsDisjoint(TokenPairs(tokens))
  {
    ScanPairsAccepts(PairsRead(tokens), InvalidReflectorMapping);
    if |tokens| == AlphabetLength {
      assert PairsRead(tokens) == TokenPairs(tokens);
    }
  }

  /** Reads the pairs of a non-empty reflector file. */
  method ReadReflectorInput(tokens: seq<int>) returns (status: Status, connections: seq<Pair>)
    requires tokens != []
    ensures status == ReflectorInputStatus(tokens)
    ensures status == NoError ==> connections == TokenPairs(tokens) && |connections| == MaxPairs
  {
    var inIsOpen;
    status, connections, inIsOpen := ReadPairs(tokens, InvalidReflectorMapping);
    if status != NoError {
      return;
    }
    if !(|connections| == MaxPairs && !inIsOpen) {
      return IncorrectNumberOfReflectorParameters, connections;
    }
    assert connections == TokenPairs(tokens);
  }

  class Reflector {
    const wiring: Wiring

    ghost predicate Valid()
      reads this, wiring
    {
      wiring.Valid() && IsTable(wiring.mapping)
    }

    /** Until it is set up, the reflector sends every letter to itself. */
    constructor ()
      ensures Valid() && fresh(wiring)
      ensures wiring.mapping == Identity()
    {
      wiring := new Wiring();
    }

    /** Validates a reflector file and, on success, wires its 13 pairs; on an error the wiring is left as it was. */
    method SetUp(tokens: seq<int>) returns (status: Status)
      requires Valid()
      modifies wiring
      ensures Valid()
      ensures status == ReflectorInputStatus(tokens)
      ensures wiring.mapping ==
        if status == NoError then ApplyPairs(old(wiring.mapping), TokenPairs(tokens)) else old(wiring.mapping)
      ensures status == NoError && old(wiring.mapping) == Identity() ==>
        IsInvolution(wiring.mapping) && IsDerangement(wiring.mapping)
    {
      if tokens == [] {
        return IncorrectNumberOfReflectorParameters;
      }
      var connections;
      status, connections := ReadReflectorInput(tokens);
      if status != NoError {
        return;
      }
      ReflectorAccepted(tokens);
      ApplyPairsKeepsTable(wiring.mapping, connections);
      ThirteenPairsOnIdentity(connections);
      wiring.SetUpPairs(connections);
    }

    /** The letter the reflector sends `inputLetter` back as; with a set-up wiring it is a different letter, and reflecting it gives `inputLetter`. */
    function GetReflectorLetter(inputLetter: int): (r: int)
      requires Valid() && InRange(inputLetter)
      reads this, wiring
      ensures InRange(r)
      ensures IsInvolution(wiring.mapping) ==> wiring.mapping[r] == inputLetter
      ensures IsDerangement(wiring.mapping) ==> r != inputLetter
    {
      wiring.GetOutputLetter(inputLetter)
    }
  }
}
