/** A rotor: forward and backward wiring tables, a letter tracker and a notch list.
    Stepping the rotor rewrites all three tables in place. */
module Rotors {
  import opened Alphabet
  import opened Errors
  import opened Wirings

  // ---------------------------------------------------------------
  // One rotor step, as a function on tables
  // ---------------------------------------------------------------

  /** The position after `i`, wrapping from Z back to A. */
  function Next(i: int): (r: int)
    requires 0 <= i < AlphabetLength
    ensures 0 <= r < AlphabetLength && r == (i + 1) % AlphabetLength
  {
    if i == ZIndex then AIndex else i + 1
  }

  /** Entry i+1 moves to position i (entry 0 moves to 25) and its value drops by one, modulo 26. */
  function RotateTable(t: seq<int>): (r: seq<int>)
    requires |t| == AlphabetLength
    ensures |r| == AlphabetLength
  {
    seq(AlphabetLength, i requires 0 <= i < AlphabetLength =>
      (t[Next(i)] - 1 + AlphabetLength) % AlphabetLength)
  }

  /** Entry i+1 moves to position i (entry 0 moves to 25); values are kept. */
  function ShiftTable(t: seq<int>): (r: seq<int>)
    requires |t| == AlphabetLength
    ensures |r| == AlphabetLength
  {
    seq(AlphabetLength, i requires 0 <= i < AlphabetLength => t[Next(i)])
  }

  function RotateTableN(t: seq<int>, n: nat): (r: seq<int>)
    requires |t| == AlphabetLength
    ensures |r| == AlphabetLength
  {
    if n == 0 then t else RotateTable(RotateTableN(t, n - 1))
  }

  function ShiftTableN(t: seq<int>, n: nat): (r: seq<int>)
    requires |t| == AlphabetLength
    ensures |r| == AlphabetLength
  {
    if n == 0 then t else ShiftTable(ShiftTableN(t, n - 1))
  }

  lemma StepArith(x: int, n: int, y: int)
    requires y == (x - (n - 1)) % AlphabetLength
    ensures (y - 1 + AlphabetLength) % AlphabetLength == (x - n) % AlphabetLength
  {
  }

  /** The position after `k`, wrapping from Z back to A. */
  lemma NextIndex(k: int)
    requires 0 <= k < AlphabetLength
    ensures (k + 1) % AlphabetLength == if k == ZIndex then AIndex else k + 1
  {
  }

  lemma IndexArith(i: int, n: int)
    requires 0 <= i < AlphabetLength
    ensures ((i + 1) % AlphabetLength + (n - 1)) % AlphabetLength == (i + n) % AlphabetLength
  {
  }

  /** A step keeps the backward table the exact inverse of the forward table. */
  lemma RotateTableKeepsInverse(f: seq<int>, b: seq<int>)
    requires IsInversePair(f, b)
    ensures IsInversePair(RotateTable(f), RotateTable(b))
  {
    var f', b' := RotateTable(f), RotateTable(b);
    forall x | 0 <= x < AlphabetLength ensures b'[f'[x]] == x && f'[b'[x]] == x {
      var j := (x + 1) % AlphabetLength;
      assert (f'[x] + 1) % AlphabetLength == f[j];
      assert (b'[x] + 1) % AlphabetLength == b[j];
    }
  }

  /** A step keeps a permutation a permutation. */
  lemma RotateTableKeepsPermutation(t: seq<int>)
    requires IsPermutation(t)
    ensures IsPermutation(RotateTable(t))
  {
    var r := RotateTable(t);
    forall i, j | 0 <= i < j < AlphabetLength ensures r[i] != r[j] {
      assert (r[i] + 1) % AlphabetLength == t[(i + 1) % AlphabetLength];
      assert (r[j] + 1) % AlphabetLength == t[(j + 1) % AlphabetLength];
    }
  }

  lemma ShiftTableKeepsPermutation(t: seq<int>)
    requires IsPermutation(t)
    ensures IsPermutation(ShiftTable(t))
  {
    var r := ShiftTable(t);
    forall i, j | 0 <= i < j < AlphabetLength ensures r[i] != r[j] {
      assert r[i] == t[(i + 1) % AlphabetLength] && r[j] == t[(j + 1) % AlphabetLength];
    }
  }

  /** After n steps, entry i is the original entry i+n, lowered by n, modulo 26. */
  lemma {:induction false} RotateTableNAt(t: seq<int>, n: nat, i: int)
    requires IsTable(t) && 0 <= i < AlphabetLength
    ensures RotateTableN(t, n)[i] == (t[(i + n) % AlphabetLength] - n) % AlphabetLength
  {
    if n > 0 {
      var j := (i + 1) % AlphabetLength;
      var r := RotateTableN(t, n - 1);
      assert RotateTableN(t, n)[i] == (r[j] - 1 + AlphabetLength) % AlphabetLength;
      RotateTableNAt(t, n - 1, j);
      IndexArith(i, n);
      StepArith(t[(i + n) % AlphabetLength], n, r[j]);
    }
  }

  /** After n shifts, entry i is the original entry i+n. */
  lemma {:induction false} ShiftTableNAt(t: seq<int>, n: nat, i: int)
    requires |t| == AlphabetLength && 0 <= i < AlphabetLength
    ensures ShiftTableN(t, n)[i] == t[(i + n) % AlphabetLength]
  {
    if n > 0 {
      var j := (i + 1) % AlphabetLength;
      ShiftTableNAt(t, n - 1, j);
      IndexArith(i, n);
    }
  }

  /** Moving a letter index forward or back by whole revolutions leaves it where it was. */
  lemma WholeRevolutions(x: int, n: int)
    requires 0 <= x < AlphabetLength && n % AlphabetLength == 0
    ensures (x + n) % AlphabetLength == x && (x - n) % AlphabetLength == x
  {
  }

  /** Any whole number of revolutions (26 steps each) gives back the original table. */
  lemma RotateTableFullRevolution(t: seq<int>, n: nat)
    requires IsTable(t) && n % AlphabetLength == 0
    ensures RotateTableN(t, n) == t
  {
    var r := RotateTableN(t, n);
    forall i | 0 <= i < AlphabetLength ensures r[i] == t[i] {
      RotateTableNAt(t, n, i);
      WholeRevolutions(i, n);
      WholeRevolutions(t[i], n);
    }
  }

  lemma ShiftTableFullRevolution(t: seq<int>, n: nat)
    requires |t| == AlphabetLength && n % AlphabetLength == 0
    ensures ShiftTableN(t, n) == t
  {
    var r := ShiftTableN(t, n);
    forall i | 0 <= i < AlphabetLength ensures r[i] == t[i] {
      ShiftTableNAt(t, n, i);
      WholeRevolutions(i, n);
    }
  }

  /** Starting from the identity tracker, the top letter after k steps is k mod 26. */
  lemma TopLetterAfterSteps(k: nat)
    ensures ShiftTableN(Identity(), k)[AIndex] == k % AlphabetLength
  {
    ShiftTableNAt(Identity(), k, AIndex);
  }

  // ---------------------------------------------------------------
  // The whole state of a rotor as a value
  // ---------------------------------------------------------------

  datatype RotorState = RotorState(forward: seq<int>, backward: seq<int>, tracker: seq<int>, notches: seq<int>)

  /** Forward and backward undo each other, the tracker is a permutation, and the notches are
      at most 26 distinct letter indices. */
  predicate ValidState(s: RotorState) {
    && IsInversePair(s.forward, s.backward) && IsPermutation(s.tracker)
    && |s.notches| <= AlphabetLength && AllInRange(s.notches) && Distinct(s.notches)
  }

  /** A newly built rotor: identity tables, tracker at A, no notches. */
  function BlankState(): (s: RotorState)
    ensures ValidState(s) && s.tracker == Identity() && s.notches == []
  {
    IdentityIsInvolution();
    assert IsPermutation(Identity()) by { InvolutionIsSelfInverse(Identity()); }
    RotorState(Identity(), Identity(), Identity(), [])
  }

  function StepState(s: RotorState): (r: RotorState)
    requires ValidState(s)
    ensures ValidState(r)
  {
    RotateTableKeepsInverse(s.forward, s.backward);
    ShiftTableKeepsPermutation(s.tracker);
    RotorState(RotateTable(s.forward), RotateTable(s.backward), ShiftTable(s.tracker), s.notches)
  }

  function StepStateN(s: RotorState, n: nat): (r: RotorState)
    requires ValidState(s)
    ensures ValidState(r)
  {
    if n == 0 then s else StepState(StepStateN(s, n - 1))
  }

  lemma {:induction false} StepStateNTables(s: RotorState, n: nat)
    requires ValidState(s)
    ensures StepStateN(s, n).forward == RotateTableN(s.forward, n)
    ensures StepStateN(s, n).backward == RotateTableN(s.backward, n)
    ensures StepStateN(s, n).tracker == ShiftTableN(s.tracker, n)
    ensures StepStateN(s, n).notches == s.notches
  {
    if n > 0 {
      StepStateNTables(s, n - 1);
    }
  }

  /** Whole revolutions restore forward, backward and tracker exactly. */
  lemma StepStateFullRevolution(s: RotorState, n: nat)
    requires ValidState(s) && n % AlphabetLength == 0
    ensures StepStateN(s, n) == s
  {
    StepStateNTables(s, n);
    RotateTableFullRevolution(s.forward, n);
    RotateTableFullRevolution(s.backward, n);
    ShiftTableFullRevolution(s.tracker, n);
  }

  // ---------------------------------------------------------------
  // Validation of a rotor configuration (already tokenised)
  // ---------------------------------------------------------------

  /** Entry `size` repeats one of the entries before it. */
  function CheckRepeat(connections: seq<int>, size: nat): (r: Status)
    requires size < |connections|
    ensures r == NoError || r == InvalidRotorMapping
    ensures r == InvalidRotorMapping <==> exists i :: 0 <= i < size && connections[i] == connections[size]
  {
    CheckRepeatFrom(connections, size, 0)
  }

  function CheckRepeatFrom(connections: seq<int>, size: nat, from: nat): (r: Status)
    requires from <= size < |connections|
    ensures r == NoError || r == InvalidRotorMapping
    ensures r == InvalidRotorMapping <==> exists i :: from <= i < size && connections[i] == connections[size]
    decreases size - from
  {
    if from == size then NoError
    else if connections[size] == connections[from] then InvalidRotorMapping
    else CheckRepeatFrom(connections, size, from + 1)
  }

  /** The first error met when the entries are checked one by one, each for its range and then for a repeat. */
  function ScanEntries(s: seq<int>): (r: Status)
    ensures r == NoError || r == InvalidIndex || r == InvalidRotorMapping
    ensures r == NoError <==> AllInRange(s) && Distinct(s)
  {
    if s == [] then NoError
    else
      var init := s[..|s| - 1];
      var e := ScanEntries(init);
      assert forall i :: 0 <= i < |init| ==> init[i] == s[i];
      if e != NoError then e
      else if CheckIndex(s[|s| - 1]) != NoError then InvalidIndex
      else CheckRepeat(s, |s| - 1)
  }

  /** Checking one more entry of a prefix that passed: the new entry is checked for its range, then for a repeat. */
  lemma ScanEntriesStep(s: seq<int>, i: nat)
    requires i < |s| && ScanEntries(s[..i]) == NoError
    ensures s[..i + 1] == s[..i] + [s[i]]
    ensures ScanEntries(s[..i + 1]) ==
      if CheckIndex(s[i]) != NoError then InvalidIndex else CheckRepeat(s[..i + 1], i)
  {
    assert s[..i + 1][..i] == s[..i];
  }

  /** Once a prefix has failed, the checks of later entries do not change the outcome. */
  lemma {:induction false} ScanEntriesKeepsFirstError(s: seq<int>, k: nat)
    requires k <= |s| && ScanEntries(s[..k]) != NoError
    ensures ScanEntries(s) == ScanEntries(s[..k])
  {
    if k < |s| {
      var init := s[..|s| - 1];
      assert init[..k] == s[..k];
      ScanEntriesKeepsFirstError(init, k);
    } else {
      assert s[..k] == s;
    }
  }

  /** The outcome of reading a rotor file: 26 distinct in-range mappings, then 1 to 26 distinct in-range notches. */
  function RotorInputStatus(tokens: seq<int>): (status: Status) {
    var mapped := Min(AlphabetLength, |tokens|);
    var mappingError := ScanEntries(tokens[..mapped]);
    if mappingError != NoError then mappingError
    else if |tokens| < AlphabetLength then InvalidRotorMapping    // not all inputs mapped
    else if |tokens| == AlphabetLength then InvalidRotorMapping   // no notch
    else
      var notched := Min(AlphabetLength, |tokens| - AlphabetLength);
      var notchError := ScanEntries(tokens[AlphabetLength..AlphabetLength + notched]);
      if notchError != NoError then notchError
      else if |tokens| > 2 * AlphabetLength then InvalidRotorMapping  // too many notches
      else NoError
  }

  /** An accepted rotor file holds a permutation followed by 1 to 26 distinct notches. */
  lemma RotorInputAccepted(tokens: seq<int>)
    ensures RotorInputStatus(tokens) == NoError <==>
      && AlphabetLength < |tokens| <= 2 * AlphabetLength
      && IsPermutation(tokens[..AlphabetLength])
      && AllInRange(tokens[AlphabetLength..]) && Distinct(tokens[AlphabetLength..])
  {
    if AlphabetLength < |tokens| <= 2 * AlphabetLength {
      assert tokens[AlphabetLength..AlphabetLength + (|tokens| - AlphabetLength)] == tokens[AlphabetLength..];
    }
  }

  /** Too few mappings, a missing notch list and a 27th notch are each rejected. */
  lemma RotorInputCountErrors(tokens: seq<int>)
    requires |tokens| <= AlphabetLength || |tokens| > 2 * AlphabetLength
    ensures RotorInputStatus(tokens) != NoError
    ensures |tokens| <= AlphabetLength && AllInRange(tokens) && Distinct(tokens) ==>
      RotorInputStatus(tokens) == InvalidRotorMapping
    ensures (&& |tokens| > 2 * AlphabetLength && AllInRange(tokens[..2 * AlphabetLength])
             && Distinct(tokens[..AlphabetLength]) && Distinct(tokens[AlphabetLength..2 * AlphabetLength])) ==>
      RotorInputStatus(tokens) == InvalidRotorMapping
  {
    if |tokens| <= AlphabetLength {
      assert tokens[..|tokens|] == tokens;
    } else if |tokens| > 2 * AlphabetLength && AllInRange(tokens[..2 * AlphabetLength]) {
      var mappings, notches := tokens[..AlphabetLength], tokens[AlphabetLength..2 * AlphabetLength];
      assert forall i :: 0 <= i < AlphabetLength ==> mappings[i] == tokens[..2 * AlphabetLength][i];
      assert forall i :: 0 <= i < AlphabetLength ==> notches[i] == tokens[..2 * AlphabetLength][AlphabetLength + i];
    }
  }

  /** Fills `backward` so that it undoes `forward`; later writes win when `forward` repeats a value. */
  method ConvertForwardToBackward(forward: seq<int>, backward: array<int>)
    requires |forward| == AlphabetLength && AllInRange(forward) && backward.Length == AlphabetLength
    modifies backward
    ensures forall i :: 0 <= i < AlphabetLength ==>
      0 <= backward[forward[i]] < AlphabetLength && forward[backward[forward[i]]] == forward[i]
    ensures forall j :: 0 <= j < AlphabetLength && (forall i :: 0 <= i < AlphabetLength ==> forward[i] != j) ==>
      backward[j] == old(backward[j])
    ensures IsPermutation(forward) ==> IsInversePair(forward, backward[..])
  {
    for i := 0 to AlphabetLength
      invariant forall k :: 0 <= k < i ==> 0 <= backward[forward[k]] < i && forward[backward[forward[k]]] == forward[k]
      invariant forall j :: 0 <= j < AlphabetLength && (forall k :: 0 <= k < i ==> forward[k] != j) ==>
        backward[j] == old(backward[j])
    {
      var inputIndex := forward[i];
      backward[inputIndex] := i;
    }
    if IsPermutation(forward) {
      forall y | 0 <= y < AlphabetLength ensures InRange(backward[y]) && forward[backward[y]] == y {
        PermutationCovers(forward, y);
      }
    }
  }

  // ---------------------------------------------------------------
  // The rotor object
  // ---------------------------------------------------------------

  class Rotor {
    const forwardWiring: Wiring
    const backwardWiring: Wiring
    const letterTracker: Wiring
    var notches: seq<int>

    ghost function Repr(): set<Wiring> {
      {forwardWiring, backwardWiring, letterTracker}
    }

    ghost predicate Valid()
      reads this, Repr()
    {
      && forwardWiring.Valid() && backwardWiring.Valid() && letterTracker.Valid()
      && forwardWiring != backwardWiring && forwardWiring != letterTracker && backwardWiring != letterTracker
      && ValidState(State())
    }

    ghost function State(): RotorState
      reads this, Repr()
    {
      RotorState(forwardWiring.mapping, backwardWiring.mapping, letterTracker.mapping, notches)
    }

    /** All three tables are the identity and there are no notches. */
    constructor ()
      ensures Valid() && fresh(Repr())
      ensures State() == BlankState()
    {
      forwardWiring := new Wiring();
      backwardWiring := new Wiring();
      letterTracker := new Wiring();
      notches := [];
    }

    /** Validates a rotor file; on success installs its mapping, the inverse mapping and its notches. */
    method SetUp(tokens: seq<int>) returns (status: Status)
      requires Valid()
      modifies this, Repr()
      ensures Valid()
      ensures status == RotorInputStatus(tokens)
      ensures status == NoError ==>
        && State().forward == tokens[..AlphabetLength]
        && IsPermutation(State().forward)
        && State().backward == InverseTable(State().forward)
        && State().tracker == old(State().tracker)
        && State().notches == tokens[AlphabetLength..]
      ensures status != NoError ==> State() == old(State())
    {
      if tokens == [] {
        return InvalidRotorMapping;
      }
      var forwardConnections, notchList;
      status, forwardConnections, notchList := ReadRotorInput(tokens);
      if status != NoError {
        return;
      }
      RotorInputAccepted(tokens);
      var backwardConnections := new int[AlphabetLength];
      forwardWiring.SetUpFull(forwardConnections);
      ConvertForwardToBackward(forwardConnections, backwardConnections);
      InverseIsUnique(forwardConnections, backwardConnections[..]);
      backwardWiring.SetUpFull(backwardConnections[..]);
      notches := notchList;
      assert State() == RotorState(forwardConnections, InverseTable(forwardConnections), old(State()).tracker, notchList);
    }

    function GetForwardRotorLetter(inputLetter: int): (r: int)
      requires Valid() && InRange(inputLetter)
      reads this, Repr()
      ensures InRange(r) && State().backward[r] == inputLetter
    {
      forwardWiring.GetOutputLetter(inputLetter)
    }

    function GetBackwardRotorLetter(inputLetter: int): (r: int)
      requires Valid() && InRange(inputLetter)
      reads this, Repr()
      ensures InRange(r) && State().forward[r] == inputLetter
    {
      backwardWiring.GetOutputLetter(inputLetter)
    }

    /** The letter currently at the top (absolute position A). */
    function GetTopLetter(): (r: int)
      requires Valid()
      reads this, Repr()
      ensures InRange(r) && r == State().tracker[AIndex]
    {
      letterTracker.GetOutputLetter(AIndex)
    }

    /** How many notches the rotor has: at most one per letter. */
    function GetNumberOfNotches(): (r: int)
      requires Valid()
      reads this, Repr()
      ensures 0 <= r <= AlphabetLength && r == |State().notches|
    {
      |notches|
    }

    /** Notch `index`, a letter index that no other notch of the rotor shares. */
    function GetNotch(index: int): (r: int)
      requires Valid() && 0 <= index < |notches|
      reads this, Repr()
      ensures InRange(r)
      ensures forall k :: 0 <= k < |notches| && k != index ==> notches[k] != r
      ensures r in State().notches
    {
      notches[index]
    }

    /** One step: the three tables move up one position, forward and backward values drop by one. */
    method RotateUp()
      requires Valid()
      modifies Repr()
      ensures Valid()
      ensures State() == StepState(old(State()))
    {
      ghost var s := State();
      var firstForwardTemp := (forwardWiring.GetOutputLetter(AIndex) - 1 + AlphabetLength) % AlphabetLength;
      var firstBackwardTemp := (backwardWiring.GetOutputLetter(AIndex) - 1 + AlphabetLength) % AlphabetLength;
      var firstLetterTemp := letterTracker.GetOutputLetter(AIndex);

      for i := 0 to AlphabetLength - 1
        invariant forwardWiring.Valid() && backwardWiring.Valid() && letterTracker.Valid()
        invariant forall k {:trigger forwardWiring.mapping[k]} :: 0 <= k < i ==> forwardWiring.mapping[k] == RotateTable(old(forwardWiring.mapping))[k]
        invariant forall k {:trigger forwardWiring.mapping[k]} :: i <= k < AlphabetLength ==> forwardWiring.mapping[k] == old(forwardWiring.mapping)[k]
        invariant forall k {:trigger backwardWiring.mapping[k]} :: 0 <= k < i ==> backwardWiring.mapping[k] == RotateTable(old(backwardWiring.mapping))[k]
        invariant forall k {:trigger backwardWiring.mapping[k]} :: i <= k < AlphabetLength ==> backwardWiring.mapping[k] == old(backwardWiring.mapping)[k]
        invariant forall k {:trigger letterTracker.mapping[k]} :: 0 <= k < i ==> letterTracker.mapping[k] == ShiftTable(old(letterTracker.mapping))[k]
        invariant forall k {:trigger letterTracker.mapping[k]} :: i <= k < AlphabetLength ==> letterTracker.mapping[k] == old(letterTracker.mapping)[k]
      {
        NextIndex(i);
        var forwardTemp := (forwardWiring.GetOutputLetter(i + 1) - 1 + AlphabetLength) % AlphabetLength;
        var backwardTemp := (backwardWiring.GetOutputLetter(i + 1) - 1 + AlphabetLength) % AlphabetLength;
        var letterTemp := letterTracker.GetOutputLetter(i + 1);
        forwardWiring.SetOutputLetter(i, forwardTemp);
        backwardWiring.SetOutputLetter(i, backwardTemp);
        letterTracker.SetOutputLetter(i, letterTemp);
      }

      NextIndex(ZIndex);
      forwardWiring.SetOutputLetter(ZIndex, firstForwardTemp);
      backwardWiring.SetOutputLetter(ZIndex, firstBackwardTemp);
      letterTracker.SetOutputLetter(ZIndex, firstLetterTemp);
      ghost var r := StepState(s);
      assert forwardWiring.mapping == r.forward;
      assert backwardWiring.mapping == r.backward;
      assert letterTracker.mapping == r.tracker;
      assert State() == r;
    }

    /** Steps the rotor `amountToRotateBy` times (not at all for a negative amount). */
    method Rotate(amountToRotateBy: int)
      requires Valid()
      modifies Repr()
      ensures Valid()
      ensures State() == StepStateN(old(State()), if amountToRotateBy < 0 then 0 else amountToRotateBy)
    {
      var i := 0;
      while i < amountToRotateBy
        invariant 0 <= i && (if amountToRotateBy < 0 then i == 0 else i <= amountToRotateBy)
        invariant Valid() && State() == StepStateN(old(State()), i)
      {
        ghost var before := State();
        RotateUp();
        assert State() == StepState(before);
        i := i + 1;
      }
    }
  }

  /** Reads the 26 mappings and then the notches, checking each value as it is read. */
  method ReadRotorInput(tokens: seq<int>) returns (status: Status, connections: seq<int>, notchList: seq<int>)
    ensures status == RotorInputStatus(tokens)
    ensures status == NoError ==> connections == tokens[..AlphabetLength] && notchList == tokens[AlphabetLength..]
  {
    var more;
    status, connections, more := ReadEntries(tokens, 0);
    assert tokens[0..Min(AlphabetLength, |tokens|)] == tokens[..Min(AlphabetLength, |tokens|)];
    notchList := [];
    if status != NoError {
      return;
    }
    if |connections| < AlphabetLength {
      return InvalidRotorMapping, connections, notchList;   // not all inputs mapped
    }
    if !more {
      return InvalidRotorMapping, connections, notchList;   // no notch given
    }
    status, notchList, more := ReadEntries(tokens, AlphabetLength);
    if status != NoError {
      return;
    }
    if more {
      return InvalidRotorMapping, connections, notchList;   // a 27th notch
    }
    assert tokens[AlphabetLength..AlphabetLength + (|tokens| - AlphabetLength)] == tokens[AlphabetLength..];
  }

  /** Reads up to 26 values from position `start`, stopping at the first one that is out of range or repeats an earlier one.
      `more` says whether input is left after a complete read. */
  method ReadEntries(tokens: seq<int>, start: nat) returns (status: Status, entries: seq<int>, more: bool)
    requires start <= |tokens|
    ensures status == ScanEntries(tokens[start..start + Min(AlphabetLength, |tokens| - start)])
    ensures status == NoError ==>
      && entries == tokens[start..start + Min(AlphabetLength, |tokens| - start)]
      && (more <==> start + AlphabetLength < |tokens|)
  {
    ghost var read := tokens[start..start + Min(AlphabetLength, |tokens| - start)];
    entries := [];
    more := start < |tokens|;
    var i := 0;
    while i < AlphabetLength && more
      invariant 0 <= i <= AlphabetLength && start + i <= |tokens|
      invariant more <==> start + i < |tokens|
      invariant entries == read[..i]
      invariant ScanEntries(read[..i]) == NoError
    {
      assert read[i] == tokens[start + i];
      ScanEntriesStep(read, i);
      entries := entries + [tokens[start + i]];
      var indexError := CheckIndex(entries[i]);
      if indexError != NoError {
        ScanEntriesKeepsFirstError(read, i + 1);
        return indexError, entries, more;
      }
      var repeatError := CheckRepeat(entries, i);
      if repeatError != NoError {
        ScanEntriesKeepsFirstError(read, i + 1);
        return repeatError, entries, more;
      }
      more := start + i + 1 < |tokens|;
      i := i + 1;
    }
    assert entries == read;
    return NoError, entries, more;
  }
}
