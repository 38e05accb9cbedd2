# Enigma cipher engine in Dafny

This project models the cipher engine of a command-line Enigma machine simulator written in
C++. The engine has five parts:

- **Wiring**: a 26-entry table from letter index to letter index. It can be built as the identity, copied from a full table, or written from a list of swap pairs.
- **Plugboard**: a wiring built from at most 13 disjoint letter pairs.
- **Reflector**: a wiring built from exactly 13 disjoint pairs, so that no letter reflects to itself.
- **Rotor**: a forward table, a backward table that is its inverse, a letter tracker that records which letter is at the top, and a notch list. One step shifts all three tables up one position. It also lowers every forward and backward value by one, modulo 26.
- **Enigma**: a machine that owns a plugboard, a reflector and an array of rotors.

Each key press first steps the rotors. The rightmost rotor always moves. Each rotor that moves carries its left neighbour along when, after its own move, it shows one of its notches at the top. The letter then passes through:

1. the plugboard;
2. the rotors from right to left, through their forward tables;
3. the reflector;
4. the rotors from left to right, through their backward tables;
5. the plugboard again.

Configuration files are modelled as sequences of integers that have already been tokenised. Letters are their indices 0 to 25.

The modules follow the source files:

| module | file | models |
|---|---|---|
| `Alphabet` | `alphabet.dfy` | letter indices and permutations, plus the pigeonhole argument behind inverse tables |
| `Errors` | `errors.dfy` | the status codes and the shared index check |
| `Wirings` | `wiring.dfy` | `Wiring.cpp` |
| `Rotors` | `rotor.dfy` | `Rotor.cpp` |
| `PairReading` | `pairs.dfy` | the pair-reading loop that `Plugboard.cpp` and `Reflector.cpp` share |
| `Plugboards` | `plugboard.dfy` | `Plugboard.cpp` |
| `Reflectors` | `reflector.dfy` | `Reflector.cpp` |
| `Machines` | `enigma.dfy` | `Enigma.cpp` |

The objects that the C++ code updates in place are Dafny classes:
- Wiring's table is a sequence field that its methods reassign.
- A rotor owns three wirings.
- The plugboard and the reflector each own one wiring.
- The machine owns the plugboard, the reflector and a sequence of rotors.

Each class states its contents as a value: `Rotor.State()`, and the ghost field `Enigma.states`. The methods are proved against pure functions on these values:
- `StepState` for one rotor step;
- `StepRotors` for a key press's stepping;
- `Encipher` for the signal path;
- `RotorInputStatus`, `PlugboardStatus`, `ReflectorInputStatus`, `PositionsStatus` and `SetUpStatus` for configuration.

The main properties are lemmas about those functions:
- the machine deciphers what it enciphers;
- no letter enciphers to itself;
- 26 steps bring a rotor back to where it started;
- each rotor's tables stay mutual inverses;
- the rotors that move on a key press are exactly a rightmost block.

Two details of the code decide the behaviour:
- **Carry check.** A rotor's notches are compared with its top letter after that rotor has stepped (`Enigma.cpp` lines 186 and 191 to 201). `Machines.Steps` encodes this order.
- **Notch count.** A rotor file must give between 1 and 26 notches (`Rotor.cpp` lines 156 to 159 and 180 to 184). Notch errors use the same codes as mapping errors.

## Model

| member | source | states |
|---|---|---|
| Wirings.Wiring.constructor | Wiring.cpp:9-14 | a new wiring maps every letter to itself |
| Wirings.Wiring.SetUpFull | Wiring.cpp:16-21 | the table becomes an exact copy of the given 26 entries |
| Wirings.Wiring.SetUpPairs | Wiring.cpp:23-29 | the table becomes `ApplyPairs` of the old table: each pair written both ways, first pair first |
| Wirings.Wiring.GetOutputLetter | Wiring.cpp:31-34 | the lookup returns an entry of the table, a letter index when the table is over the alphabet, and changes nothing |
| Wirings.Wiring.SetOutputLetter | Wiring.cpp:36-39 | exactly entry `inputLetter` changes, to `outputLetter` |
| Wirings.ApplyPairsKeepsTable | Wiring.cpp:23-29 | writing in-range pairs into a table over the alphabet keeps it over the alphabet |
| Wirings.ApplyPairsKeepsUnnamed | Wiring.cpp:23-29 | a letter named in no pair keeps its previous entry |
| Wirings.ApplyPairsWiresPair | Wiring.cpp:23-29 | with disjoint pairs, the two letters of every pair end up wired to each other |
| Wirings.PairsOnIdentity | Wiring.cpp:23-29 | disjoint pairs written on the identity give an involution that fixes exactly the unnamed letters |
| Wirings.ThirteenPairsNameEveryLetter | Reflector.cpp:44 | 13 disjoint in-range pairs name all 26 letters |
| Wirings.ThirteenPairsOnIdentity | Reflector.cpp:44 | 13 disjoint pairs on the identity give an involution with no fixed point |
| Rotors.Rotor.constructor | Rotor.cpp:16-21 | a new rotor has identity forward, backward and tracker tables and no notches |
| Rotors.ConvertForwardToBackward | Rotor.cpp:238-246 | `forward[backward[forward[i]]] == forward[i]` for every i, and unreached entries keep their old value; for a permutation, backward is its exact inverse |
| Alphabet.PermutationCovers | Rotor.cpp:238-246 | a permutation of the alphabet hits every letter, so the backward table is defined everywhere |
| Alphabet.InverseTable | Rotor.cpp:238-246 | the table sending each letter to its position in a permutation is a table over the alphabet that undoes it |
| Alphabet.InverseIsUnique | Rotor.cpp:238-246 | a permutation has exactly one inverse, `InverseTable` |
| Alphabet.InversePairArePermutations | Rotor.cpp:238-246 | two tables that undo each other are both permutations |
| Rotors.Rotor.SetUp | Rotor.cpp:28-65 | the status is `RotorInputStatus`; an empty file is an invalid mapping; on success, forward is the first 26 values, backward is their inverse, and the notches are the rest; on an error, nothing changes |
| Rotors.Rotor.GetForwardRotorLetter | Rotor.cpp:67-70 | the forward lookup gives a letter that the backward table sends back |
| Rotors.Rotor.GetBackwardRotorLetter | Rotor.cpp:72-75 | the backward lookup gives a letter that the forward table sends back |
| Rotors.Rotor.GetTopLetter | Rotor.cpp:77-80 | the top letter is tracker entry A, a letter index |
| Rotors.Rotor.GetNumberOfNotches | Rotor.cpp:82-85 | a valid rotor has at most 26 notches, one per letter at most: the count lies between 0 and 26 and is the length of the notch list |
| Rotors.Rotor.GetNotch | Rotor.cpp:87-90 | on a valid rotor, a notch is a letter index, different from every other notch, and one of the rotor's notches |
| Rotors.Rotor.RotateUp | Rotor.cpp:92-117 | the in-place loop leaves the rotor in `StepState` of its old state: each table shifted up one position, with forward and backward values lowered by one modulo 26; the rotor stays valid |
| Rotors.RotateTableKeepsInverse | Rotor.cpp:92-117 | one step keeps backward the exact inverse of forward |
| Rotors.RotateTableKeepsPermutation | Rotor.cpp:92-117 | one step keeps a permutation a permutation |
| Rotors.ShiftTableKeepsPermutation | Rotor.cpp:92-117 | shifting the tracker keeps it a permutation |
| Rotors.StepState | Rotor.cpp:92-117 | one step of a valid rotor state gives a valid state: tables still mutual inverses, tracker still a permutation, notches still at most 26 distinct letter indices |
| Rotors.Rotor.Rotate | Rotor.cpp:119-124 | the rotor ends in `StepStateN(old state, n)`; it is left unchanged when n is 0 or negative |
| Rotors.StepStateN | Rotor.cpp:119-124 | any number of steps keeps a rotor state valid |
| Rotors.StepStateNTables | Rotor.cpp:119-124 | n steps apply n single-table steps to each table and keep the notches |
| Rotors.RotateTableNAt | Rotor.cpp:92-124 | after n steps, entry i is the original entry i+n lowered by n, modulo 26 |
| Rotors.ShiftTableNAt | Rotor.cpp:92-124 | after n shifts, tracker entry i is the original entry i+n |
| Rotors.RotateTableFullRevolution | Rotor.cpp:119-124 | a whole number of revolutions (multiples of 26 steps) gives back a wiring table exactly |
| Rotors.ShiftTableFullRevolution | Rotor.cpp:119-124 | a whole number of revolutions gives back the tracker exactly |
| Rotors.StepStateFullRevolution | Rotor.cpp:119-124 | a whole number of revolutions gives back the whole rotor state |
| Rotors.TopLetterAfterSteps | Rotor.cpp:77-80 | from the identity tracker, the top letter after k steps is k mod 26 |
| Rotors.BlankState | Rotor.cpp:16-21 | a newly built rotor is valid, with the identity tracker and no notches |
| Errors.CheckIndex | Rotor.cpp:206-216 | `InvalidIndex` exactly for values outside 0..25, otherwise no error; the identical checks of `Plugboard.cpp` (126-134), `Reflector.cpp` (133-141) and `Enigma.cpp` (174-181) are this one function |
| Rotors.CheckRepeat | Rotor.cpp:218-236 | `InvalidRotorMapping` exactly when entry `size` equals some earlier entry |
| Rotors.ScanEntries | Rotor.cpp:126-189 | checking entries one by one, first the range and then repeats, succeeds exactly when all are in range and distinct |
| Rotors.ScanEntriesStep | Rotor.cpp:133-147 | after a prefix that passed, the next entry is checked for its range first and then for a repeat of an earlier entry |
| Rotors.ScanEntriesKeepsFirstError | Rotor.cpp:126-189 | the first failing entry decides the outcome |
| Rotors.ReadEntries | Rotor.cpp:131-147 | the reading loop returns the scan's status and, on success, exactly the values read, and says whether input remains |
| Rotors.ReadRotorInput | Rotor.cpp:126-189 | the status is `RotorInputStatus`; on success, the 26 mappings and the notches are the first 26 values and the rest |
| Rotors.RotorInputAccepted | Rotor.cpp:126-189 | a rotor file is accepted exactly when it holds a permutation followed by 1 to 26 distinct in-range notches |
| Rotors.RotorInputCountErrors | Rotor.cpp:149-186 | too few mappings, no notch or a 27th notch is rejected: each gives `InvalidRotorMapping` when the values read before it are fine |
| PairReading.TokenPairs | Plugboard.cpp:75-76 | there are `|tokens| / 2` pairs, and flattening them gives back the tokens up to the last complete pair: pair k is values 2k and 2k+1 |
| PairReading.PairsRead | Plugboard.cpp:64 | the loop gets to every complete pair, but to no more than 13 |
| PairReading.CheckPairRepeat | Plugboard.cpp:136-154 | the pair error exactly when a letter of pair `size` appears in an earlier pair; the reflector's check (`Reflector.cpp` 143-161) is the same with its own error code |
| PairReading.CheckPair | Plugboard.cpp:78-97 | a pair passes exactly when it joins two different in-range letters unused by earlier pairs; the self-pair check comes first, as in `Reflector.cpp` 79-96 |
| PairReading.ScanPairs | Plugboard.cpp:64-102 | checking pairs in order yields no error, an index error or the pair error |
| PairReading.ScanPairsAccepts | Plugboard.cpp:64-102 | the scan succeeds exactly when the pairs are in range and disjoint |
| PairReading.ScanPairsKeepsFirstError | Reflector.cpp:65-101 | the first failing pair decides the outcome |
| PairReading.SelfPairFirst | Plugboard.cpp:78-92 | a first pair like (30, 30) gets the pair error, not `InvalidIndex` |
| PairReading.FirstBadPair | Reflector.cpp:65-101 | a pair that fails its checks after good pairs decides the scan of all pairs read |
| PairReading.ReadPairs | Plugboard.cpp:54-102 | the loop's status is the scan of the pairs read; on success, it returns those pairs and whether a value follows them |
| Plugboards.PlugboardInputStatus | Plugboard.cpp:54-112 | an accepted plugboard file gives in-range disjoint pairs |
| Plugboards.PlugboardAccepted | Plugboard.cpp:19-112 | a plugboard file is accepted exactly when it has an even number of values, at most 26, forming in-range disjoint pairs; an empty file is accepted |
| Plugboards.PlugboardCountError | Plugboard.cpp:104-109 | with good pairs, an odd number of values or more than 26 gives `IncorrectNumberOfPlugboardParameters` |
| Plugboards.ReadPlugboardInput | Plugboard.cpp:54-112 | the status is `PlugboardInputStatus`; on success, the pairs are the file's pairs |
| Plugboards.Plugboard.constructor | Plugboard.cpp:16-17 | a new plugboard swaps no letter |
| Plugboards.Plugboard.SetUp | Plugboard.cpp:19-47 | the status is `PlugboardStatus`; only a successful non-empty file writes its pairs; from the identity, the result is an involution fixing exactly the unnamed letters |
| Plugboards.Plugboard.GetPlugboardLetter | Plugboard.cpp:49-52 | gives a letter index that an involutive plugboard sends back |
| Reflectors.ReflectorInputStatus | Reflector.cpp:55-119 | an accepted reflector file gives in-range disjoint pairs |
| Reflectors.ReflectorAccepted | Reflector.cpp:19-119 | a reflector file is accepted exactly when it has 26 values forming 13 in-range disjoint pairs; so an empty file, too few, too many or an odd count is rejected |
| Reflectors.ReadReflectorInput | Reflector.cpp:55-119 | the status is `ReflectorInputStatus`; on success, the file's 13 pairs |
| Reflectors.Reflector.constructor | Reflector.cpp:16-17 | a new reflector sends every letter to itself |
| Reflectors.Reflector.SetUp | Reflector.cpp:19-48 | the status is `ReflectorInputStatus`; only success writes the pairs; from the identity, the result is an involution without fixed points |
| Reflectors.Reflector.GetReflectorLetter | Reflector.cpp:50-53 | gives a letter index that an involutive reflector sends back, and that is a different letter once the reflector has no fixed point |
| Machines.Enigma.constructor | Enigma.cpp:18-22 | a new machine has identity plugboard and reflector and no rotors |
| Machines.Enigma.StepRotor | Enigma.cpp:186 | exactly one rotor steps; the other rotors, the plugboard and the reflector are untouched |
| Machines.Enigma.RotateSingleRotor | Enigma.cpp:196-206 | rotor `i - 1` steps exactly when rotor `i` shows a notch at the top, and the result says whether it did |
| Machines.Enigma.RotateRotors | Enigma.cpp:183-194 | the rotor states become `StepRotors` of the old states |
| Machines.StepRotors | Enigma.cpp:183-206 | stepping keeps every rotor state valid and the number of rotors |
| Machines.PartialStepNext | Enigma.cpp:190-192 | one round of the carry loop: the flag is true exactly when the next rotor to the left must move |
| Machines.PartialStepDone | Enigma.cpp:190-192 | once the carry stops or reaches rotor 0, no rotor further left moves |
| Machines.StepsToTheRight | Enigma.cpp:183-206 | a rotor moves only if every rotor to its right moves |
| Machines.MovedRotorsAreASuffix | Enigma.cpp:183-206 | the rotors that move are exactly those from some index to the rightmost one; each moves one step and the others keep their state |
| Machines.Enigma.ForwardThroughRotors | Enigma.cpp:74-76 | the first rotor loop computes `Forward`, through rotors n-1 down to 0 |
| Machines.Enigma.BackwardThroughRotors | Enigma.cpp:80-82 | the second rotor loop computes `Backward`, through rotors 0 up to n-1 |
| Machines.BackwardUndoesForward | Enigma.cpp:74-82 | the backward path undoes the forward path |
| Machines.ForwardUndoesBackward | Enigma.cpp:74-82 | the forward path undoes the backward path |
| Machines.Encipher | Enigma.cpp:72-84 | the signal path gives a letter index |
| Machines.Enigma.Code | Enigma.cpp:66-87 | the rotors step first; the output is `Encipher` in the new rotor state; with a fixed-point-free reflector, it is never the input letter |
| Machines.EncipherIsReciprocal | Enigma.cpp:72-84 | in a fixed rotor state, enciphering the output gives back the input |
| Machines.EncipherIsInjective | Enigma.cpp:72-84 | in a fixed rotor state, distinct letters encipher to distinct letters |
| Machines.EncipherHasNoFixedPoint | Enigma.cpp:78 | a reflector without fixed points means no letter enciphers to itself |
| Machines.NoRotorsPath | Enigma.cpp:74-84 | without rotors there is no stepping, and the output is plugboard, reflector, plugboard |
| Machines.Enigma.RotateRotor | Enigma.cpp:115 | one rotor turns by the given amount; the rest of the machine is untouched |
| Machines.Enigma.ReadRotorPositions | Enigma.cpp:124-159 | the status is `PositionsStatus`; on success, the positions are the file's values |
| Machines.PositionsAccepted | Enigma.cpp:124-159 | a position file is accepted exactly when it holds one letter index per rotor; with valid values, too few or too many give `NoRotorStartingPosition` |
| Machines.Enigma.PositionRotors | Enigma.cpp:89-122 | the status is `PositionsStatus`; on success, rotor k has been stepped positions[k] times; on an error, no rotor moves |
| Machines.PositionedRotorShowsPosition | Enigma.cpp:114-116 | a rotor set up from an accepted file and turned to position p shows p at the top |
| Machines.InitialRotor | Rotor.cpp:54-61 | the state installed from an accepted rotor file is valid |
| Machines.FirstRotorError | Enigma.cpp:49-54 | no error exactly when every rotor file is accepted |
| Machines.FirstRotorErrorAt | Enigma.cpp:49-54 | when the rotor files before i are accepted, the outcome is file i's error |
| Machines.NewRotors | Enigma.cpp:47 | builds the requested number of new blank rotors, each with its own wirings |
| Machines.Enigma.AllocateRotors | Enigma.cpp:32-47 | the machine gets the requested number of new blank rotors |
| Machines.Enigma.SetUpRotor | Enigma.cpp:50-53 | validates one rotor file; on success, only that rotor changes, to `InitialRotor` |
| Machines.Enigma.SetUpRotors | Enigma.cpp:47-54 | the status is the first rotor file's error; on success, every rotor holds its file's state |
| Machines.SetUpStatus | Enigma.cpp:29-64 | the order of the checks: plugboard, reflector, each rotor file, then positions only if there are rotors |
| Machines.SetUpAccepted | Enigma.cpp:29-64 | a configuration is accepted exactly when every file is, and the position file has one letter index per rotor |
| Machines.Enigma.SetUp | Enigma.cpp:29-64 | the status is `SetUpStatus`; on success: the plugboard is the identity with the file's pairs written in (`ApplyPairs`), an involution fixing its unnamed letters, a fixed-point-free involutive reflector, and rotor k in `InitialRotor` of its file stepped to its starting position |

## Left out

- File opening and token reading are not modelled. Each configuration file is a sequence of integers that has already been tokenised, and a stream read succeeds while values remain. The error for a file that cannot be opened is therefore absent.
- The check for non-numeric characters in every file is not modelled, because it inspects the characters of a token before `atoi` converts them. The `NonNumericCharacter` code is therefore absent.
- The numeric values of the error codes are not modelled: `errors.h` is not part of this model, so the codes appear by name only.
- Diagnostic messages on the error stream are not modelled.
- The conversion between characters and letter indices in `Enigma::code` is not modelled. `Code` takes and returns letter indices 0 to 25.
- `main.cpp` is not part of this model: the argument count check and the input and output loop are left out.
- Memory management is not modelled: `new[]`, `delete[]`, the destructors and the `delete` applied to the positions array. The rotor array is a sequence of objects, and the notch array is a sequence field.
- Wirings.Wiring: the 26-entry C++ array is a sequence field that each write reassigns as a whole. No two tables ever share storage, so only the in-place nature of the updates is lost.
- Machines.Enigma.SetUp: requires a freshly constructed machine, the only way the program uses it. The model also does not state the machine's state after a failed set-up, since the program stops then. The rotor count is set when the rotor array is built rather than first, which matters only in that state.
- Machines.Enigma.SetUp: the rotor loop of `Enigma::setUp`, the allocation of the rotor array, and the rotation loop of `Enigma::positionRotors` are each a method of their own (`SetUpRotors`, `AllocateRotors`, the loop in `PositionRotors`). The order of the steps and of the checks is the source's.
