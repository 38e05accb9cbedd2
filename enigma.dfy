/** The machine: plugboard, rotors and reflector, how the rotors step on each key
    press, the path a letter takes through the machine, and the set-up from
    configuration files. */
module Machines {
  import opened Alphabet
  import opened Errors
  import opened Wirings
  import opened Rotors
  import opened Plugboards
  import opened Reflectors
  import opened PairReading

  // ---------------------------------------------------------------
  // Rotor states of the whole machine, rotor 0 leftmost
  // ---------------------------------------------------------------

  predicate AllValid(ss: seq<RotorState>) {
    forall k :: 0 <= k < |ss| ==> ValidState(ss[k])
  }

  /** The rotor's top letter is one of its notches. */
  predicate AtNotch(s: RotorState)
    requires ValidState(s)
  {
    s.tracker[AIndex] in s.notches
  }

  /** Whether rotor `i` moves on a key press: the rightmost rotor always does, and rotor
      `i` does when rotor `i + 1` moved and, once moved, shows one of its notches. */
  predicate Steps(ss: seq<RotorState>, i: int)
    requires AllValid(ss) && 0 <= i < |ss|
    decreases |ss| - i
  {
    i == |ss| - 1 || (Steps(ss, i + 1) && AtNotch(StepState(ss[i + 1])))
  }

  /** The rotor states after one key press has moved the rotors. */
  function StepRotors(ss: seq<RotorState>): (r: seq<RotorState>)
    requires AllValid(ss)
    ensures |r| == |ss| && AllValid(r)
  {
    seq(|ss|, k requires 0 <= k < |ss| => if Steps(ss, k) then StepState(ss[k]) else ss[k])
  }

  /** The rotor states once the rotors from `i` on have made their move. */
  ghost function PartialStep(ss: seq<RotorState>, i: int): (r: seq<RotorState>)
    requires AllValid(ss) && 0 <= i <= |ss|
    ensures |r| == |ss|
  {
    seq(|ss|, k requires 0 <= k < |ss| => if i <= k && Steps(ss, k) then StepState(ss[k]) else ss[k])
  }

  /** One round of the carry: rotor `i` has moved, and rotor `i - 1` moves exactly when
      rotor `i` now shows a notch. */
  lemma PartialStepNext(ss: seq<RotorState>, i: int, before: seq<RotorState>, after: seq<RotorState>, rotated: bool)
    requires AllValid(ss) && 0 < i < |ss| && Steps(ss, i)
    requires before == PartialStep(ss, i)
    requires rotated == AtNotch(before[i])
    requires after == if rotated then before[i - 1 := StepState(before[i - 1])] else before
    ensures rotated <==> Steps(ss, i - 1)
    ensures after == PartialStep(ss, i - 1)
  {
    assert before[i] == StepState(ss[i]);
    assert before[i - 1] == ss[i - 1];
  }

  /** Once a rotor stays put, or the leftmost has been handled, the move is complete. */
  lemma PartialStepDone(ss: seq<RotorState>, i: int)
    requires AllValid(ss) && 0 <= i < |ss| && (i == 0 || !Steps(ss, i))
    ensures PartialStep(ss, i) == StepRotors(ss)
  {
    forall k | 0 <= k < i && Steps(ss, k) ensures false {
      StepsToTheRight(ss, k, i);
    }
  }

  /** The rotor states once rotors 0 to `j - 1` have been turned to their positions. */
  ghost function TurnedUpTo(ss: seq<RotorState>, positions: seq<int>, j: int): (r: seq<RotorState>)
    requires AllValid(ss) && |positions| == |ss| && AllInRange(positions) && 0 <= j <= |ss|
    ensures |r| == |ss|
    ensures forall k :: 0 <= k < |ss| ==> r[k] == if k < j then StepStateN(ss[k], positions[k]) else ss[k]
  {
    seq(|ss|, k requires 0 <= k < |ss| => if k < j then StepStateN(ss[k], positions[k]) else ss[k])
  }

  lemma TurnedNext(ss: seq<RotorState>, positions: seq<int>, j: int, before: seq<RotorState>, after: seq<RotorState>)
    requires AllValid(ss) && |positions| == |ss| && AllInRange(positions) && 0 <= j < |ss|
    requires before == TurnedUpTo(ss, positions, j)
    requires after == before[j := StepStateN(before[j], positions[j])]
    ensures after == TurnedUpTo(ss, positions, j + 1)
  {
  }

  /** A rotor moves only if every rotor to its right moved too. */
  lemma {:induction false} StepsToTheRight(ss: seq<RotorState>, i: int, j: int)
    requires AllValid(ss) && 0 <= i <= j < |ss| && Steps(ss, i)
    ensures Steps(ss, j)
    decreases j - i
  {
    if i < j {
      StepsToTheRight(ss, i + 1, j);
    }
  }

  /** On each key press the rotors that move are exactly the rightmost ones from `first`
      on; each of them moves by one position while the others keep their state. */
  lemma MovedRotorsAreASuffix(ss: seq<RotorState>) returns (first: int)
    requires AllValid(ss) && ss != []
    ensures 0 <= first < |ss|
    ensures forall k :: 0 <= k < |ss| ==> (Steps(ss, k) <==> first <= k)
    ensures forall k :: 0 <= k < |ss| ==> StepRotors(ss)[k] == if first <= k then StepState(ss[k]) else ss[k]
  {
    first := |ss| - 1;
    while 0 < first && Steps(ss, first - 1)
      invariant 0 <= first < |ss| && Steps(ss, first)
      decreases first
    {
      first := first - 1;
    }
    forall k | 0 <= k < |ss| ensures Steps(ss, k) <==> first <= k {
      if first <= k {
        StepsToTheRight(ss, first, k);
      } else if Steps(ss, k) {
        StepsToTheRight(ss, k, first - 1);
      }
    }
  }

  // ---------------------------------------------------------------
  // The path of a letter
  // ---------------------------------------------------------------

  /** The letter after passing the rotors from the rightmost down to rotor `i`, using
      their forward tables. */
  function ForwardFrom(ss: seq<RotorState>, i: int, x: int): (r: int)
    requires AllValid(ss) && 0 <= i <= |ss| && InRange(x)
    ensures InRange(r)
    decreases |ss| - i
  {
    if i == |ss| then x else ss[i].forward[ForwardFrom(ss, i + 1, x)]
  }

  /** The letter after passing rotors 0 to `j - 1`, left to right, using their backward
      tables. */
  function BackwardTo(ss: seq<RotorState>, j: int, y: int): (r: int)
    requires AllValid(ss) && 0 <= j <= |ss| && InRange(y)
    ensures InRange(r)
  {
    if j == 0 then y else ss[j - 1].backward[BackwardTo(ss, j - 1, y)]
  }

  /** Through all the rotors, right to left. */
  function Forward(ss: seq<RotorState>, x: int): (r: int)
    requires AllValid(ss) && InRange(x)
    ensures InRange(r)
  {
    ForwardFrom(ss, 0, x)
  }

  /** Through all the rotors, left to right. */
  function Backward(ss: seq<RotorState>, y: int): (r: int)
    requires AllValid(ss) && InRange(y)
    ensures InRange(r)
  {
    BackwardTo(ss, |ss|, y)
  }

  /** Going back through rotors 0 to `j - 1` after the whole forward path leaves the letter
      as it was before the forward path reached rotor `j - 1`. */
  lemma {:induction false} BackwardToAfterForward(ss: seq<RotorState>, j: int, x: int)
    requires AllValid(ss) && 0 <= j <= |ss| && InRange(x)
    ensures BackwardTo(ss, j, Forward(ss, x)) == ForwardFrom(ss, j, x)
  {
    if j > 0 {
      BackwardToAfterForward(ss, j - 1, x);
    }
  }

  /** Going forward from the rightmost rotor down to rotor `i` after the whole backward path
      leaves the letter as it was before the backward path reached rotor `i`. */
  lemma {:induction false} ForwardFromAfterBackward(ss: seq<RotorState>, i: int, y: int)
    requires AllValid(ss) && 0 <= i <= |ss| && InRange(y)
    ensures ForwardFrom(ss, i, Backward(ss, y)) == BackwardTo(ss, i, y)
    decreases |ss| - i
  {
    if i < |ss| {
      ForwardFromAfterBackward(ss, i + 1, y);
    }
  }

  /** The backward path undoes the forward path. */
  lemma BackwardUndoesForward(ss: seq<RotorState>, x: int)
    requires AllValid(ss) && InRange(x)
    ensures Backward(ss, Forward(ss, x)) == x
  {
    BackwardToAfterForward(ss, |ss|, x);
  }

  /** The forward path undoes the backward path. */
  lemma ForwardUndoesBackward(ss: seq<RotorState>, y: int)
    requires AllValid(ss) && InRange(y)
    ensures Forward(ss, Backward(ss, y)) == y
  {
    ForwardFromAfterBackward(ss, 0, y);
  }

  /** The letter that comes out: plugboard, rotors right to left, reflector, rotors left
      to right, plugboard. */
  function Encipher(plug: seq<int>, refl: seq<int>, ss: seq<RotorState>, x: int): (r: int)
    requires IsTable(plug) && IsTable(refl) && AllValid(ss) && InRange(x)
    ensures InRange(r)
  {
    plug[Backward(ss, refl[Forward(ss, plug[x])])]
  }

  /** With involutive plugboard and reflector, enciphering twice in the same rotor state
      gives the letter back: the machine deciphers what it enciphers. */
  lemma EncipherIsReciprocal(plug: seq<int>, refl: seq<int>, ss: seq<RotorState>, x: int)
    requires IsInvolution(plug) && IsInvolution(refl) && AllValid(ss) && InRange(x)
    ensures Encipher(plug, refl, ss, Encipher(plug, refl, ss, x)) == x
  {
    var y := Forward(ss, plug[x]);
    BackwardUndoesForward(ss, refl[y]);
    ForwardUndoesBackward(ss, refl[y]);
    BackwardUndoesForward(ss, plug[x]);
  }

  /** In a given rotor state distinct letters encipher to distinct letters. */
  lemma EncipherIsInjective(plug: seq<int>, refl: seq<int>, ss: seq<RotorState>, x: int, y: int)
    requires IsInvolution(plug) && IsInvolution(refl) && AllValid(ss) && InRange(x) && InRange(y)
    requires x != y
    ensures Encipher(plug, refl, ss, x) != Encipher(plug, refl, ss, y)
  {
    EncipherIsReciprocal(plug, refl, ss, x);
    EncipherIsReciprocal(plug, refl, ss, y);
  }

  /** With a reflector that maps no letter to itself, no letter enciphers to itself. */
  lemma EncipherHasNoFixedPoint(plug: seq<int>, refl: seq<int>, ss: seq<RotorState>, x: int)
    requires IsInvolution(plug) && IsDerangement(refl) && AllValid(ss) && InRange(x)
    ensures Encipher(plug, refl, ss, x) != x
  {
    var y := Forward(ss, plug[x]);
    ForwardUndoesBackward(ss, refl[y]);
  }

  /** A machine without rotors does not step, and a letter goes through the plugboard, the
      reflector and the plugboard again. */
  lemma NoRotorsPath(plug: seq<int>, refl: seq<int>, x: int)
    requires IsTable(plug) && IsTable(refl) && InRange(x)
    ensures StepRotors([]) == []
    ensures Encipher(plug, refl, [], x) == plug[refl[plug[x]]]
  {
  }

  // ---------------------------------------------------------------
  // Configuration
  // ---------------------------------------------------------------

  /** The state of a rotor right after its file was accepted: the file's mapping, its
      inverse, the identity tracker (letter A at the top) and the file's notches. */
  function InitialRotor(tokens: seq<int>): (s: RotorState)
    requires RotorInputStatus(tokens) == NoError
    ensures ValidState(s)
  {
    RotorInputAccepted(tokens);
    InverseIsUnique(tokens[..AlphabetLength], []);
    assert IsPermutation(Identity()) by { IdentityIsInvolution(); InvolutionIsSelfInverse(Identity()); }
    RotorState(tokens[..AlphabetLength], InverseTable(tokens[..AlphabetLength]), Identity(), tokens[AlphabetLength..])
  }

  /** The error of the first rotor file that is rejected, if any. */
  function FirstRotorError(files: seq<seq<int>>): (r: Status)
    ensures r == NoError <==> forall k :: 0 <= k < |files| ==> RotorInputStatus(files[k]) == NoError
  {
    if files == [] then NoError
    else if RotorInputStatus(files[0]) != NoError then RotorInputStatus(files[0])
    else
      var r := FirstRotorError(files[1..]);
      assert forall k :: 0 < k < |files| ==> files[k] == files[1..][k - 1];
      r
  }

  /** When the files before `i` are accepted, the first error is that of file `i`, if it has one. */
  lemma {:induction false} FirstRotorErrorAt(files: seq<seq<int>>, i: int)
    requires 0 <= i < |files|
    requires forall k :: 0 <= k < i ==> RotorInputStatus(files[k]) == NoError
    requires RotorInputStatus(files[i]) != NoError
    ensures FirstRotorError(files) == RotorInputStatus(files[i])
  {
    if i > 0 {
      assert forall k :: 0 <= k < i - 1 ==> files[1..][k] == files[k + 1];
      FirstRotorErrorAt(files[1..], i - 1);
    }
  }

  /** The outcome of reading a position file for `numberOfRotors` rotors: the positions read
      (at most one per rotor) must be letter indices, and there must be exactly one per rotor. */
  function PositionsStatus(numberOfRotors: nat, tokens: seq<int>): (status: Status) {
    var read := Min(numberOfRotors, |tokens|);
    if !AllInRange(tokens[..read]) then InvalidIndex
    else if |tokens| != numberOfRotors then NoRotorStartingPosition
    else NoError
  }

  /** A position file is accepted exactly when it holds one letter index per rotor. */
  lemma PositionsAccepted(numberOfRotors: nat, tokens: seq<int>)
    ensures PositionsStatus(numberOfRotors, tokens) == NoError <==>
      |tokens| == numberOfRotors && AllInRange(tokens)
    ensures |tokens| < numberOfRotors && AllInRange(tokens) ==>
      PositionsStatus(numberOfRotors, tokens) == NoRotorStartingPosition
    ensures |tokens| > numberOfRotors && AllInRange(tokens[..numberOfRotors]) ==>
      PositionsStatus(numberOfRotors, tokens) == NoRotorStartingPosition
  {
    if |tokens| <= numberOfRotors {
      assert tokens[..|tokens|] == tokens;
    }
  }

  /** The outcome of setting up a machine: plugboard file, reflector file, each rotor file
      in order, then (only when there are rotors) the position file. */
  function SetUpStatus(plugboardTokens: seq<int>, reflectorTokens: seq<int>,
                       rotorTokens: seq<seq<int>>, positionTokens: seq<int>): Status
  {
    var plugboardError := PlugboardStatus(plugboardTokens);
    if plugboardError != NoError then plugboardError
    else
      var reflectorError := ReflectorInputStatus(reflectorTokens);
      if reflectorError != NoError then reflectorError
      else if rotorTokens == [] then NoError
      else
        var rotorError := FirstRotorError(rotorTokens);
        if rotorError != NoError then rotorError
        else PositionsStatus(|rotorTokens|, positionTokens)
  }

  /** A configuration is accepted exactly when each of its files is, and the position file
      holds one letter index per rotor (it is not read when there are no rotors). */
  lemma SetUpAccepted(plugboardTokens: seq<int>, reflectorTokens: seq<int>,
                      rotorTokens: seq<seq<int>>, positionTokens: seq<int>)
    ensures SetUpStatus(plugboardTokens, reflectorTokens, rotorTokens, positionTokens) == NoError <==>
      && PlugboardStatus(plugboardTokens) == NoError
      && |reflectorTokens| == AlphabetLength
      && PairsInRange(TokenPairs(reflectorTokens)) && PairsDisjoint(TokenPairs(reflectorTokens))
      && (forall k :: 0 <= k < |rotorTokens| ==> RotorInputStatus(rotorTokens[k]) == NoError)
      && (rotorTokens != [] ==> |positionTokens| == |rotorTokens| && AllInRange(positionTokens))
  {
    ReflectorAccepted(reflectorTokens);
    PositionsAccepted(|rotorTokens|, positionTokens);
  }

  /** The rotor states once the files of rotors 0 to `i - 1` have been installed on blank rotors. */
  ghost function SetUpTo(files: seq<seq<int>>, i: int): (r: seq<RotorState>)
    requires 0 <= i <= |files| && forall k :: 0 <= k < i ==> RotorInputStatus(files[k]) == NoError
    ensures |r| == |files| && AllValid(r)
    ensures forall k :: 0 <= k < |files| ==> r[k] == if k < i then InitialRotor(files[k]) else BlankState()
  {
    seq(|files|, k requires 0 <= k < |files| => if k < i then InitialRotor(files[k]) else BlankState())
  }

  lemma SetUpNext(files: seq<seq<int>>, i: int, before: seq<RotorState>, after: seq<RotorState>)
    requires 0 <= i < |files| && forall k :: 0 <= k <= i ==> RotorInputStatus(files[k]) == NoError
    requires before == SetUpTo(files, i) && after == before[i := InitialRotor(files[i])]
    ensures after == SetUpTo(files, i + 1)
  {
  }

  /** A rotor whose file was accepted shows at the top the letter its position file gives it. */
  lemma PositionedRotorShowsPosition(tokens: seq<int>, position: int)
    requires RotorInputStatus(tokens) == NoError && InRange(position)
    ensures StepStateN(InitialRotor(tokens), position).tracker[AIndex] == position
  {
    StepStateNTables(InitialRotor(tokens), position);
    TopLetterAfterSteps(position);
  }

  // ---------------------------------------------------------------
  // The machine
  // ---------------------------------------------------------------

  /** The footprint of a sequence of rotors. */
  ghost function ReprOf(rs: seq<Rotor>): (r: set<Wiring>)
    ensures forall k :: 0 <= k < |rs| ==> rs[k].Repr() <= r
  {
    if rs == [] then {}
    else
      var r := ReprOf(rs[1..]);
      assert forall k :: 0 < k < |rs| ==> rs[k] == rs[1..][k - 1];
      rs[0].Repr() + r
  }

  /** Adding a rotor on the right adds its footprint. */
  lemma {:induction false} ReprOfSnoc(rs: seq<Rotor>, r: Rotor)
    ensures ReprOf(rs + [r]) == ReprOf(rs) + r.Repr()
  {
    if rs != [] {
      assert (rs + [r])[1..] == rs[1..] + [r];
      ReprOfSnoc(rs[1..], r);
    }
  }

  /** Builds `count` new rotors, each with identity tables and no notches, sharing no wiring. */
  method NewRotors(count: nat) returns (rs: seq<Rotor>)
    ensures |rs| == count && fresh(ReprOf(rs))
    ensures forall k :: 0 <= k < count ==> fresh(rs[k]) && rs[k].Valid() && rs[k].State() == BlankState()
    ensures forall j, k :: 0 <= j < k < count ==> rs[j] != rs[k] && rs[j].Repr() !! rs[k].Repr()
  {
    rs := [];
    while |rs| < count
      invariant |rs| <= count && fresh(ReprOf(rs))
      invariant forall k :: 0 <= k < |rs| ==> fresh(rs[k]) && rs[k].Valid() && rs[k].State() == BlankState()
      invariant forall j, k :: 0 <= j < k < |rs| ==> rs[j] != rs[k] && rs[j].Repr() !! rs[k].Repr()
    {
      var rotor := new Rotor();
      forall k | 0 <= k < |rs|
        ensures rs[k] != rotor && rs[k].Repr() !! rotor.Repr()
        ensures rs[k].Valid() && rs[k].State() == BlankState()
      {
        assert rs[k].Repr() <= ReprOf(rs);
      }
      ReprOfSnoc(rs, rotor);
      rs := rs + [rotor];
    }
  }

  class Enigma {
    const plugboard: Plugboard
    const reflector: Reflector
    /** The rotor array, leftmost rotor first; empty while there is none. */
    var rotors: seq<Rotor>
    var numberOfRotors: nat
    /** The state of each rotor, as a value. */
    ghost var states: seq<RotorState>

    ghost predicate Valid()
      reads this, plugboard, reflector, plugboard.wiring, reflector.wiring, rotors, ReprOf(rotors)
    {
      && plugboard.Valid() && reflector.Valid()
      && plugboard.wiring != reflector.wiring
      && IsInvolution(plugboard.wiring.mapping) && IsInvolution(reflector.wiring.mapping)
      && |rotors| == numberOfRotors
      && (forall k :: 0 <= k < |rotors| ==> rotors[k].Valid())
      && plugboard.wiring !in ReprOf(rotors) && reflector.wiring !in ReprOf(rotors)
      && (forall j, k :: 0 <= j < k < |rotors| ==> rotors[j] != rotors[k] && rotors[j].Repr() !! rotors[k].Repr())
      && |states| == |rotors| && AllValid(states)
      && (forall k :: 0 <= k < |rotors| ==> states[k] == rotors[k].State())
    }

    /** A machine that has not been set up: letters pass the plugboard and the reflector
        unchanged and there are no rotors. */
    ghost predicate Blank()
      reads this, plugboard, reflector, plugboard.wiring, reflector.wiring, rotors, ReprOf(rotors)
    {
      Valid() && plugboard.wiring.mapping == Identity() && reflector.wiring.mapping == Identity() && rotors == []
    }

    constructor ()
      ensures Blank() && numberOfRotors == 0
    {
      plugboard := new Plugboard();
      reflector := new Reflector();
      rotors := [];
      numberOfRotors := 0;
      states := [];
      new;
      IdentityIsInvolution();
    }
  
    /** Moves one rotor by one position; the other rotors, the plugboard and the reflector
        are untouched. */
    method StepRotor(rotorIndex: int)
      requires Valid() && 0 <= rotorIndex < |rotors|
      modifies this, rotors[rotorIndex].Repr()
      ensures Valid() && rotors == old(rotors)
      ensures states == old(states)[rotorIndex := StepState(old(states)[rotorIndex])]
    {
      ghost var before := states;
      rotors[rotorIndex].RotateUp();
      states := states[rotorIndex := StepState(states[rotorIndex])];
      forall k | 0 <= k < |rotors| && k != rotorIndex
        ensures rotors[k].State() == before[k] && rotors[k].Valid()
      {
        assert rotors[k] != rotors[rotorIndex] && rotors[k].Repr() !! rotors[rotorIndex].Repr();
      }
    }

    /** Moves rotor `rotorIndex - 1` one position when rotor `rotorIndex` shows one of its
        notches at the top, and says whether it did. */
    method RotateSingleRotor(rotorIndex: int) returns (rotated: bool)
      requires Valid() && 0 < rotorIndex < |rotors|
      modifies this, ReprOf(rotors)
      ensures Valid() && rotors == old(rotors)
      ensures rotated == AtNotch(old(states)[rotorIndex])
      ensures states ==
        if rotated then old(states)[rotorIndex - 1 := StepState(old(states)[rotorIndex - 1])]
        else old(states)
    {
      var rotor := rotors[rotorIndex];
      for i := 0 to rotor.GetNumberOfNotches()
        invariant forall k :: 0 <= k < i ==> rotor.notches[k] != rotor.GetTopLetter()
      {
        if rotor.GetNotch(i) == rotor.GetTopLetter() {
          StepRotor(rotorIndex - 1);
          return true;
        }
      }
      return false;
    }
  
    /** The stepping done before each letter: the rightmost rotor moves, and each rotor
        that moves onto a notch carries the rotor to its left along. */
    method RotateRotors()
      requires Valid()
      modifies this, ReprOf(rotors)
      ensures Valid() && rotors == old(rotors)
      ensures states == StepRotors(old(states))
    {
      ghost var ss := states;
      if |rotors| > 0 {
        var last := numberOfRotors - 1;
        StepRotor(last);

        var stillRotating := true;
        var i := numberOfRotors - 1;
        assert states == PartialStep(ss, i);
        while i > 0 && stillRotating
          invariant 0 <= i < |rotors| == |ss| && Valid() && rotors == old(rotors)
          invariant stillRotating <==> Steps(ss, i)
          invariant states == PartialStep(ss, i)
          decreases i
        {
          ghost var before := states;
          stillRotating := RotateSingleRotor(i);
          PartialStepNext(ss, i, before, states, stillRotating);
          i := i - 1;
        }
        PartialStepDone(ss, i);
      }
    }

    /** The first rotor loop of a key press: through the rotors from the rightmost to the
        leftmost, using their forward tables. */
    method ForwardThroughRotors(letterIndex: int) returns (r: int)
      requires Valid() && InRange(letterIndex)
      ensures Valid()
      ensures r == Forward(states, letterIndex)
    {
      r := letterIndex;
      var i := numberOfRotors;
      while i > 0
        invariant 0 <= i <= |rotors|
        invariant r == ForwardFrom(states, i, letterIndex)
      {
        r := rotors[i - 1].GetForwardRotorLetter(r);
        i := i - 1;
      }
    }

    /** The second rotor loop of a key press: through the rotors from the leftmost to the
        rightmost, using their backward tables. */
    method BackwardThroughRotors(letterIndex: int) returns (r: int)
      requires Valid() && InRange(letterIndex)
      ensures Valid()
      ensures r == Backward(states, letterIndex)
    {
      r := letterIndex;
      for j := 0 to numberOfRotors
        invariant r == BackwardTo(states, j, letterIndex)
      {
        r := rotors[j].GetBackwardRotorLetter(r);
      }
    }

    /** Presses a key: the rotors step, then the letter is sent through the plugboard, the
        rotors from right to left, the reflector, the rotors from left to right and the
        plugboard again. */
    method Code(letter: int) returns (r: int)
      requires Valid() && InRange(letter)
      modifies this, ReprOf(rotors)
      ensures Valid() && rotors == old(rotors)
      ensures states == StepRotors(old(states))
      ensures r == Encipher(plugboard.wiring.mapping, reflector.wiring.mapping, states, letter)
      ensures IsDerangement(reflector.wiring.mapping) ==> r != letter
    {
      RotateRotors();
      var letterIndex := plugboard.GetPlugboardLetter(letter);
      letterIndex := ForwardThroughRotors(letterIndex);
      letterIndex := reflector.GetReflectorLetter(letterIndex);
      letterIndex := BackwardThroughRotors(letterIndex);
      letterIndex := plugboard.GetPlugboardLetter(letterIndex);
      r := letterIndex;
      if IsDerangement(reflector.wiring.mapping) {
        EncipherHasNoFixedPoint(plugboard.wiring.mapping, reflector.wiring.mapping, states, letter);
      }
    }
  
    /** Turns one rotor by `amountToRotateBy` positions; the other rotors, the plugboard and
        the reflector are untouched. */
    method RotateRotor(rotorIndex: int, amountToRotateBy: nat)
      requires Valid() && 0 <= rotorIndex < |rotors|
      modifies this, rotors[rotorIndex].Repr()
      ensures Valid() && rotors == old(rotors)
      ensures states == old(states)[rotorIndex := StepStateN(old(states)[rotorIndex], amountToRotateBy)]
    {
      ghost var before := states;
      rotors[rotorIndex].Rotate(amountToRotateBy);
      states := states[rotorIndex := StepStateN(states[rotorIndex], amountToRotateBy)];
      forall k | 0 <= k < |rotors| && k != rotorIndex
        ensures rotors[k].State() == before[k] && rotors[k].Valid()
      {
        assert rotors[k] != rotors[rotorIndex] && rotors[k].Repr() !! rotors[rotorIndex].Repr();
      }
    }

    /** Reads one starting position per rotor, checking each as it is read. */
    method ReadRotorPositions(tokens: seq<int>) returns (status: Status, positions: seq<int>)
      ensures status == PositionsStatus(numberOfRotors, tokens)
      ensures status == NoError ==> positions == tokens
    {
      positions := [];
      var i := 0;
      while i < numberOfRotors && i < |tokens|
        invariant 0 <= i <= numberOfRotors && i <= |tokens|
        invariant positions == tokens[..i] && AllInRange(positions)
      {
        positions := positions + [tokens[i]];
        if CheckIndex(positions[i]) != NoError {
          assert tokens[..Min(numberOfRotors, |tokens|)][i] == tokens[i];
          return InvalidIndex, positions;
        }
        i := i + 1;
      }
      if i != numberOfRotors {
        assert tokens[..|tokens|] == tokens;
        return NoRotorStartingPosition, positions;
      }
      if i < |tokens| {
        return NoRotorStartingPosition, positions;
      }
      assert tokens[..i] == tokens;
      return NoError, positions;
    }

    /** Reads the position file and turns each rotor to its starting position; on an error
        no rotor is turned. */
    method PositionRotors(tokens: seq<int>) returns (status: Status)
      requires Valid() && |rotors| > 0
      modifies this, ReprOf(rotors)
      ensures Valid() && rotors == old(rotors)
      ensures status == PositionsStatus(numberOfRotors, tokens)
      ensures status == NoError ==>
        && |tokens| == |rotors| && AllInRange(tokens)
        && forall k :: 0 <= k < |rotors| ==> states[k] == StepStateN(old(states)[k], tokens[k])
      ensures status != NoError ==> states == old(states)
    {
      if tokens == [] {
        return NoRotorStartingPosition;
      }
      var positions;
      status, positions := ReadRotorPositions(tokens);
      if status != NoError {
        return;
      }
      PositionsAccepted(numberOfRotors, tokens);
      for j := 0 to numberOfRotors
        invariant Valid() && rotors == old(rotors)
        invariant states == TurnedUpTo(old(states), positions, j)
      {
        ghost var before := states;
        RotateRotor(j, positions[j]);
        TurnedNext(old(states), positions, j, before, states);
      }
    }

    /** Validates the rotor file of rotor `rotorIndex`, which is still blank, and on success
        installs its mapping, the inverse mapping and its notches. */
    method SetUpRotor(rotorIndex: int, tokens: seq<int>) returns (status: Status)
      requires Valid() && 0 <= rotorIndex < |rotors| && states[rotorIndex] == BlankState()
      modifies this, rotors[rotorIndex], rotors[rotorIndex].Repr()
      ensures Valid() && rotors == old(rotors)
      ensures status == RotorInputStatus(tokens)
      ensures states == if status == NoError then old(states)[rotorIndex := InitialRotor(tokens)] else old(states)
    {
      ghost var before := states;
      status := rotors[rotorIndex].SetUp(tokens);
      if status == NoError {
        states := states[rotorIndex := InitialRotor(tokens)];
      }
      forall k | 0 <= k < |rotors| && k != rotorIndex
        ensures rotors[k].State() == before[k] && rotors[k].Valid()
      {
        assert rotors[k] != rotors[rotorIndex] && rotors[k].Repr() !! rotors[rotorIndex].Repr();
      }
    }

    /** Gives the machine `count` new blank rotors. */
    method AllocateRotors(count: nat)
      requires Valid() && rotors == []
      modifies this
      ensures Valid() && |rotors| == count && fresh(ReprOf(rotors))
      ensures forall k :: 0 <= k < count ==> fresh(rotors[k])
      ensures states == seq(count, _ => BlankState())
    {
      numberOfRotors := count;
      rotors := NewRotors(count);
      states := seq(count, _ => BlankState());
    }

    /** Builds the rotor array and validates the rotor files from left to right, stopping at
        the first one that is rejected. */
    method SetUpRotors(rotorTokens: seq<seq<int>>) returns (status: Status)
      requires Valid() && rotors == [] && rotorTokens != []
      modifies this
      ensures Valid() && |rotors| == |rotorTokens| && fresh(ReprOf(rotors))
      ensures status == FirstRotorError(rotorTokens)
      ensures status == NoError ==> states == SetUpTo(rotorTokens, |rotorTokens|)
    {
      AllocateRotors(|rotorTokens|);
      ghost var newRotors := rotors;
      for i := 0 to numberOfRotors
        invariant Valid() && rotors == newRotors
        invariant forall k :: 0 <= k < i ==> RotorInputStatus(rotorTokens[k]) == NoError
        invariant states == SetUpTo(rotorTokens, i)
      {
        ghost var before := states;
        status := SetUpRotor(i, rotorTokens[i]);
        if status != NoError {
          FirstRotorErrorAt(rotorTokens, i);
          return;
        }
        SetUpNext(rotorTokens, i, before, states);
      }
      status := NoError;
    }

    /** Configures a blank machine from its files, stopping at the first error: the plugboard,
        the reflector, each rotor from left to right and, when there are rotors, their
        starting positions. */
    method SetUp(plugboardTokens: seq<int>, reflectorTokens: seq<int>,
                 rotorTokens: seq<seq<int>>, positionTokens: seq<int>) returns (status: Status)
      requires Blank()
      modifies this, plugboard.wiring, reflector.wiring
      ensures status == SetUpStatus(plugboardTokens, reflectorTokens, rotorTokens, positionTokens)
      ensures status == NoError ==>
        && Valid() && numberOfRotors == |rotorTokens|
        && plugboard.wiring.mapping == ApplyPairs(Identity(), TokenPairs(plugboardTokens))
        && IsInvolution(plugboard.wiring.mapping)
        && (forall x :: 0 <= x < AlphabetLength ==>
              (plugboard.wiring.mapping[x] == x <==> !Named(TokenPairs(plugboardTokens), x)))
        && reflector.wiring.mapping == ApplyPairs(Identity(), TokenPairs(reflectorTokens))
        && IsDerangement(reflector.wiring.mapping)
        && (forall k :: 0 <= k < |rotorTokens| ==> RotorInputStatus(rotorTokens[k]) == NoError)
        && (rotorTokens != [] ==> |positionTokens| == |rotorTokens| && AllInRange(positionTokens))
        && |states| == |rotorTokens|
        && forall k :: 0 <= k < |rotorTokens| ==>
             states[k] == StepStateN(InitialRotor(rotorTokens[k]), positionTokens[k])
    {
      status := plugboard.SetUp(plugboardTokens);
      if status != NoError {
        return;
      }
      status := reflector.SetUp(reflectorTokens);
      if status != NoError {
        return;
      }
      if rotorTokens == [] {
        return NoError;
      }
      status := SetUpRotors(rotorTokens);
      if status != NoError {
        return;
      }
      status := PositionRotors(positionTokens);
    }
  }
}
