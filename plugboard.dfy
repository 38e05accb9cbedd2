/** The plugboard: up to 13 letter swaps applied on the way into and out of the rotors. */
module Plugboards {
  import opened Alphabet
  import opened Errors
  import opened Wirings
  import opened PairReading

  /** The outcome of reading a non-empty plugboard file: the first bad pair, else an error if any value is left unread. */
  function PlugboardInputStatus(tokens: seq<int>): (r: Status)
    ensures r == NoError ==> PairsInRange(TokenPairs(tokens)) && PairsDisjoint(TokenPairs(tokens))
  {
    ScanPairsAccepts(PairsRead(tokens), ImpossiblePlugboardConfiguration);
    var pairError := ScanPairs(PairsRead(tokens), ImpossiblePlugboardConfiguration);
    if pairError != NoError then pairError
    else if 2 * |PairsRead(tokens)| < |tokens| then IncorrectNumberOfPlugboardParameters  // odd count or a 14th pair
    else NoError
  }

  /** The outcome of setting up a plugboard: an empty file means no swaps. */
  function PlugboardStatus(tokens: seq<int>): (status: Status) {
    if tokens == [] then NoError else PlugboardInputStatus(tokens)
  }

  /** A plugboard file is accepted exactly when it holds an even number (at most 26) of in-range values
      forming pairs that join no letter to itself and use no letter twice. */
  lemma PlugboardAccepted(tokens: seq<int>)
    ensures PlugboardStatus(tokens) == NoError <==>
      && |tokens| % 2 == 0 && |tokens| <= AlphabetLength
      && PairsInRange(TokenPairs(tokens)) && PairsDisjoint(TokenPairs(tokens))
  {
    ScanPairsAccepts(PairsRead(tokens), ImpossiblePlugboardConfiguration);
    if |tokens| % 2 == 0 && |tokens| <= AlphabetLength {
      assert PairsRead(tokens) == TokenPairs(tokens);
    }
  }

  /** When the pairs read are fine, an odd number of values or more than 26 of them is reported as a count error. */
  lemma PlugboardCountError(tokens: seq<int>)
    requires tokens != []
    requires ScanPairs(PairsRead(tokens), ImpossiblePlugboardConfiguration) == NoError
    ensures PlugboardStatus(tokens) == IncorrectNumberOfPlugboardParameters <==>
      |tokens| % 2 == 1 || |tokens| > AlphabetLength
  {
  }

  /** Reads the pairs of a non-empty plugboard file. */
  method ReadPlugboardInput(tokens: seq<int>) returns (status: Status, connections: seq<Pair>)
    requires tokens != []
    ensures status == PlugboardInputStatus(tokens)
    ensures status == NoError ==> connections == TokenPairs(tokens) && PairsInRange(connections)
  {
    var inIsOpen;
    status, connections, inIsOpen := ReadPairs(tokens, ImpossiblePlugboardConfiguration);
    if status != NoError {
      return;
    }
    if inIsOpen {
      return IncorrectNumberOfPlugboardParameters, connections;
    }
    PlugboardAccepted(tokens);
    assert connections == TokenPairs(tokens);
  }

  class Plugboard {
    const wiring: Wiring

    ghost predicate Valid()
      reads this, wiring
    {
      wiring.Valid() && IsTable(wiring.mapping)
    }

    /** No letter is swapped. */
    constructor ()
      ensures Valid() && fresh(wiring)
      ensures wiring.mapping == Identity()
    {
      wiring := new Wiring();
    }

    /** Validates a plugboard file and, on success, wires its pairs; on an error the wiring is left as it was. */
    method SetUp(tokens: seq<int>) returns (status: Status)
      requires Valid()
      modifies wiring
      ensures Valid()
      ensures status == PlugboardStatus(tokens)
      ensures wiring.mapping ==
        if status == NoError && tokens != [] then ApplyPairs(old(wiring.mapping), TokenPairs(tokens)) else old(wiring.mapping)
      ensures status == NoError && old(wiring.mapping) == Identity() ==>
        && IsInvolution(wiring.mapping)
        && forall x :: 0 <= x < AlphabetLength ==> (wiring.mapping[x] == x <==> !Named(TokenPairs(tokens), x))
    {
      if tokens == [] {
        IdentityIsInvolution();
        return NoError;
      }
      var connections;
      status, connections := ReadPlugboardInput(tokens);
      if status != NoError {
        return;
      }
      PlugboardAccepted(tokens);
      ApplyPairsKeepsTable(wiring.mapping, connections);
      PairsOnIdentity(connections);
      wiring.SetUpPairs(connections);
    }

    /** The letter the plugboard sends `inputLetter` to; with an involutive wiring, sending it back gives `inputLetter`. */
    function GetPlugboardLetter(inputLetter: int): (r: int)
      requires Valid() && InRange(inputLetter)
      reads this, wiring
      ensures InRange(r)
      ensures IsInvolution(wiring.mapping) ==> wiring.mapping[r] == inputLetter
    {
      wiring.GetOutputLetter(inputLetter)
    }
  }
}
