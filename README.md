# advent2019 in Dafny

A model of xorkevin's Advent of Code 2019 solutions, in Go and Rust, with
proofs about the model. It covers two parts.

**The Intcode machines.** There are four generations:

- day 2: add, multiply, halt;
- day 5: parameter modes, jumps, comparisons, one input value;
- day 7: input and output queues;
- day 9 and later: relative base, `setArg`, closing queues. This is the machine days 11, 13, 17 and 21 reuse.

Each machine is a class over its memory array. Every operation is tied to a pure step function, and every opcode's effect is proved about that function.

**The puzzle logic.** This covers days 1, 3, 4, 6, 8, 10, 11, 12, 13, 14, 16, 17, 18, 20 and 22:

- fuel sums;
- wire crossings;
- password rules;
- the orbit tree;
- image layers;
- asteroid visibility;
- the painting robot;
- moon gravity;
- the arcade board;
- the nanofactory;
- the FFT;
- the scaffold robot;
- the key maze and its search;
- the recursive portal maze;
- the card shuffle.

Where the source mutates a structure in place, the model is a class whose
methods carry `modifies` clauses. Loops are `while` loops with invariants.
Every `log.Fatal`, `panic` or Rust `Err` is an explicit error result,
except where a `requires` excludes the input that causes it. Each such
member has its own line under "Left out", which says what the program
does on that input.
Unbounded machine runs and searches that need not stop take a `fuel`
argument.

Modules:

| module | file | models |
|---|---|---|
| `Num` | num.dfy | truncating `/` and `%` of Go and Rust, `abs`, decimal `strconv.Itoa`/`Atoi` |
| `IntcodeCore` | intcode_core.dfy | instruction decoding, addressing modes, faults, memory access |
| `Intcode02`, `Intcode05`, `Intcode07`, `Intcode09` | machine02/05/07/09.dfy | the four machine generations |
| `Permutations` | perm.dfy | Heap-style `Perm` of days 7 and 9 |
| `Fuel` | day01.dfy | day 1 |
| `Wires` | day03.dfy | day 3 |
| `Passwords` | day04.dfy | day 4 |
| `Orbits` | day06.dfy | day 6 |
| `Image` | day08.dfy | day 8 |
| `Euclid` | euclid.dfy | `gcd` of day 10, `GCD`/`LCM` of day 12 |
| `Asteroids` | day10.dfy | day 10 |
| `Painting` | day11.dfy | day 11 robot |
| `Moons` | day12.dfy | day 12 |
| `Arcade` | day13.dfy | day 13 board |
| `Nanofactory` | day14.dfy | day 14 |
| `Fft` | day16.dfy | day 16 |
| `Scaffold` | day17.dfy | day 17 robot |
| `Frontier` | openset.dfy | the open and closed sets of days 18 and 20 |
| `KeyMaze` | day18.dfy | day 18 |
| `PortalMaze` | day20.dfy | day 20 |
| `Shuffle` | day22.dfy | day 22 |

## Model

| member | source | states |
|---|---|---|
| Num.Abs | day18/main.go:89-94 | the result is non-negative and is the argument or its negation |
| Num.QuotRemNonNeg | day05/main.go:51-57 | on non-negative operands the truncating quotient and remainder agree with the Euclidean ones |
| Num.RemBounds | day05/main.go:51-57 | the truncating remainder lies strictly between -b and b, takes the sign of the dividend, and a == b * Quot + Rem |
| Num.RemNeg | day05/main.go:51-57 | for a negative dividend the truncating remainder is minus the remainder of its absolute value |
| Num.QuotNeg | day05/main.go:51-57 | for a negative dividend the truncating quotient is minus the quotient of its absolute value |
| Num.RemAbs | day10/main.go:31-38 | the absolute value of a truncating remainder is the remainder of the absolute values, below the divisor |
| Num.DigitRoundTrip | day17/main.go:339-380 | a digit character read back gives its digit |
| Num.NatDigits | day16/main.go:39-50 | the decimal spelling of a natural number is non-empty, all digits, and one character exactly below ten |
| Num.DigitsRoundTrip | day14/main.go:95-105 | reading back the decimal spelling of n gives n |
| Num.ItoaShape | day04/main.go:13-14 | strconv.Itoa gives a non-empty string of digits and minus signs |
| Num.AtoiSigned | day14/main.go:95-105 | strconv.Atoi reads a minus sign followed by digits as the negated value |
| Num.AtoiUnsigned | day14/main.go:95-105 | strconv.Atoi reads a digit string as its value |
| Num.AtoiItoa | day18/main.go:250-265 | strconv.Atoi(strconv.Itoa(n)) == n for every integer |
| Num.AtoiRejects | day14/main.go:95-105 | the empty string and a lone non-digit are parse errors |
| IntcodeCore.ModeDigit | day09/main.go:39-43 | every mode digit is 0, 1 or 2 |
| IntcodeCore.ParamMode | day09/main.go:45-57 | a mode digit is accepted exactly when it is 0 or 1, or 2 on a relative-base machine; the accepted mode spells the digit back; a rejected digit is the error |
| IntcodeCore.OpAndModeFieldsTruncate | day05/main.go:51-57 | the opcode is code % 100 and the mode digits are code / 100, / 1000 and / 10000, % 10, all with truncating Go division |
| IntcodeCore.FieldNeg | day05/main.go:51-57 | a negative code gives the negated digit of its absolute value |
| IntcodeCore.DecodeFields | day05/src/main.rs:37-52 | a successful decode returns the opcode field and the three mode digits |
| IntcodeCore.DecodeError | day05/src/main.rs:37-52 | decoding succeeds exactly when all three mode digits are legal; otherwise the error is the first illegal digit |
| IntcodeCore.DecodeEncode | day09/main.go:59-65 | decoding the encoding of an instruction gives back that instruction |
| IntcodeCore.EncodeDecode | day09/main.go:59-65 | encoding a decoded five-digit code gives back the code |
| IntcodeCore.Load | day09/main.go:67-70 | reading memory succeeds exactly inside the slice, gives the cell, and faults with the address outside it |
| IntcodeCore.Store | day09/main.go:90-93 | writing memory succeeds exactly inside the slice, changes that one cell, and faults with the address outside it |
| IntcodeCore.EvalArg | day09/main.go:71-84 | an immediate argument is itself; a position argument reads its address; a relative argument reads its address plus relBase |
| IntcodeCore.DestAddr | day09/main.go:94-107 | an immediate-mode destination is a fault |
| IntcodeCore.SetArg | day09/main.go:94-107 | a successful write stores v at the destination address inside memory; an immediate-mode destination always fails |
| IntcodeCore.Combine | day05/main.go:71-140 | opcodes 7 and 8 store 1 exactly when a < b or a == b respectively, and 0 otherwise |
| IntcodeCore.LoadFrom | day09/main.go:67-70 | reading the array agrees with Load on its contents |
| IntcodeCore.EvalArgFrom | day09/main.go:71-84 | evaluating an argument on the array agrees with EvalArg |
| IntcodeCore.GetArgFrom | day09/main.go:85-89 | fetching a parameter on the array agrees with GetArg |
| IntcodeCore.SetArgIn | day09/main.go:94-107 | writing a parameter on the array leaves the contents SetArg computes, or leaves them unchanged on a fault |
| Intcode02.Arith | day02/main.go:31-53 | a completed add or multiply keeps the memory size and advances pc by 4; a fault leaves the state unchanged |
| Intcode02.Step | day02/src/main.rs:18-43 | a faulting step leaves the state unchanged |
| Intcode02.ArithSemantics | day02/main.go:31-53 | opcode 1 or 2 with operands inside memory stores the sum or product of the cells the first two parameters name into the cell the third names, advances pc by 4 and changes nothing else |
| Intcode02.HaltSemantics | day02/src/main.rs:18-43 | opcode 99 halts and moves pc past it |
| Intcode02.BadOpcodeSemantics | day02/src/main.rs:18-43 | any other opcode is an error carrying pc and the word, with the state unchanged |
| Intcode02.RunStable | day02/main.go:54-58 | once a run has stopped, more fuel changes nothing |
| Intcode02.ExampleAdd | day02/main.go:31-53 | the program 1,0,0,0,99 halts with 2,0,0,0,99 |
| Intcode02.ExampleMultiply | day02/main.go:31-53 | the program 2,4,4,5,99,0 halts with 9801 in its last cell |
| Intcode02.Machine.constructor | day02/main.go:24-30 | a new machine holds the image with pc 0 |
| Intcode02.Machine.MemAt | day02/main.go:59-62 | reads the current memory cell |
| Intcode02.Machine.MemSet | day02/main.go:63-66 | writes one cell and changes no other |
| Intcode02.Machine.Exec | day02/main.go:31-53 | one in-place step performs Step on the machine's state |
| Intcode02.Machine.Execute | day02/src/main.rs:44-56 | the run loop performs Run on the machine's state |
| Intcode05.Binary | day05/main.go:71-140 | a completed arithmetic or comparison keeps the memory size |
| Intcode05.Step | day05/src/main.rs:69-155 | a fault leaves the state unchanged; the input value and memory size never change; an output only happens on a running step |
| Intcode05.IterateRunning | day05/main.go:141-152 | a running step followed by the rest of the run prints the step's output before the rest |
| Intcode05.IterateStopped | day05/main.go:141-152 | a halting or faulting step ends the run with nothing printed |
| Intcode05.IterateStable | day05/main.go:141-152 | once a run has stopped, more fuel changes nothing |
| Intcode05.RunKeepsInput | day05/main.go:25-33 | the input value a machine is built with is never changed by running it |
| Intcode05.ArithSemantics | day05/main.go:71-140 | add and multiply store the sum or product of their mode-evaluated operands at the position-mode destination and advance pc by 4 |
| Intcode05.InputSemantics | day05/main.go:71-140 | opcode 3 stores the fixed input value and advances pc by 2 |
| Intcode05.OutputSemantics | day05/src/main.rs:69-155 | opcode 4 records its evaluated operand as the output, reports it, and advances pc by 2 |
| Intcode05.JumpSemantics | day05/main.go:71-140 | jump-if-true or jump-if-false moves pc to the target when the test holds, else by 3 |
| Intcode05.CompareSemantics | day05/main.go:71-140 | less-than and equals store 1 or 0 at the destination and advance pc by 4 |
| Intcode05.HaltSemantics | day05/main.go:71-140 | opcode 99 halts |
| Intcode05.FaultSemantics | day05/src/main.rs:69-155 | an illegal mode digit is a BadMode fault and an unknown opcode a BadOpcode fault, both leaving the state unchanged |
| Intcode05.UnusedModes | day05/src/main.rs:37-52 | all three mode digits are checked, even those an opcode does not use |
| Intcode05.EqualsEightProgram | day05/main.go:141-152 | the puzzle's equal-to-8 example program prints 1 exactly when its input is 8 |
| Intcode05.BinaryOp | day05/main.go:71-140 | the in-place arithmetic agrees with Binary, or leaves memory unchanged on a fault |
| Intcode05.JumpOp | day05/main.go:71-140 | the in-place jump agrees with Jump |
| Intcode05.Machine.constructor | day05/main.go:25-33 | a new machine holds the image, pc 0 and its input value |
| Intcode05.Machine.MemSet | day05/main.go:157-160 | writes one cell |
| Intcode05.Machine.Exec | day05/main.go:71-140 | one in-place step performs Step and returns whether it printed |
| Intcode05.Machine.Execute | day05/src/main.rs:156-175 | the run loop performs Run and returns the values printed |
| Intcode07.Input | day07/main.go:91-158 | an input instruction that does not complete leaves memory and pc unchanged |
| Intcode07.Step | day07/src/main.rs:87-183 | a blocked step changes nothing; memory size and the closed flag never change |
| Intcode07.SentTrans | day07/main.go:82-86 | appending to the output queue composes |
| Intcode07.StepOutput | day07/main.go:82-86 | a step appends at most one value to the output, and outGauge is the last value sent |
| Intcode07.RunOutput | day07/main.go:159-163 | a run only appends to the output queue, and outGauge is the last value ever sent |
| Intcode07.InputSemantics | day07/src/main.rs:87-183 | opcode 3 takes the head of the input queue; on an empty open queue it blocks with nothing changed; on an empty closed queue it faults |
| Intcode07.OutputSemantics | day07/main.go:82-86 | opcode 4 appends its operand to the output queue and records it in outGauge |
| Intcode07.CompareAndHaltSemantics | day07/main.go:91-158 | comparisons store Combine's 0/1 result; opcode 99 halts |
| Intcode07.EchoProgram | day07/main.go:91-158 | an echo program outputs its first input and leaves the rest queued; with no input it blocks |
| Intcode07.Machine.constructor | day07/main.go:27-36 | a new machine has empty queues, pc 0 and outGauge 0 |
| Intcode07.Machine.Write | day07/main.go:78-81 | appends one value to the input queue |
| Intcode07.Machine.CloseInput | day07/src/main.rs:78-81 | marks the input queue closed, after which an empty queue is a receive error |
| Intcode07.Machine.Read | day07/main.go:87-90 | takes the head of the output queue, or reports none on an empty queue |
| Intcode07.Machine.Output | day07/main.go:82-86 | appends to the output queue and records outGauge |
| Intcode07.Machine.ExecInput | day07/src/main.rs:78-81 | the in-place input instruction agrees with Input |
| Intcode07.Machine.Exec | day07/main.go:91-158 | one in-place step performs Step |
| Intcode07.Machine.Execute | day07/src/main.rs:184-199 | the run loop performs Run |
| Intcode09.Binary | day09/main.go:133-185 | a completed arithmetic or comparison keeps the memory size; an immediate destination is an error |
| Intcode09.Input | day13/main.go:118-122 | an input that does not complete leaves memory and pc unchanged; a blocked input changes nothing |
| Intcode09.Step | day09/src/main.rs:112-192 | a blocked step changes nothing; memory size and both closed flags never change |
| Intcode09.IterateRunning | day09/main.go:186-191 | a running step continues the run from its successor |
| Intcode09.IterateStopped | day09/main.go:186-191 | a stopping step ends the run with its own transition |
| Intcode09.RunAndCloseOutput | day09/main.go:186-191 | Go's Execute closes the output queue exactly when the run halts, with Run's status |
| Intcode09.RunAndCloseInput | day09/src/main.rs:193-210 | Rust's execute closes the input queue exactly when the run halts or faults, with Run's status |
| Intcode09.RunKeepsFlags | day09/main.go:133-185 | stepping never opens or closes a queue |
| Intcode09.StepOutput | day09/main.go:120-124 | a step appends at most one value to the output and outGauge is the last one sent |
| Intcode09.RunOutput | day09/main.go:120-124 | a run only appends to the output queue |
| Intcode09.RelBaseSemantics | day09/main.go:133-185 | opcode 9 adds its operand to relBase and advances pc by 2 |
| Intcode09.BinarySemantics | day09/main.go:94-107 | arithmetic and comparisons store at the position or relative destination, or fault with the address when it is outside memory |
| Intcode09.ImmediateWriteFaults | day09/main.go:94-107 | an immediate-mode destination is a fault with nothing changed |
| Intcode09.InputSemantics | day09/src/main.rs:112-192 | opcode 3 takes the queue head (after day 13's feed); an empty queue blocks, or faults once closed; a bad destination faults with the value consumed |
| Intcode09.FeedSemantics | day13/main.go:118-122 | on day 13's machine the fed value is what opcode 3 stores |
| Intcode09.OutputSemantics | day09/main.go:120-124 | opcode 4 appends its operand to the output and records it in outGauge |
| Intcode09.JumpSemantics | day09/main.go:133-185 | the jumps move pc to the target when the test holds, else by 3 |
| Intcode09.HaltAndBadOpcode | day09/src/main.rs:112-192 | 99 halts; any other unknown opcode faults with pc and the word |
| Intcode09.RelEchoProgram | day09/main.go:186-191 | a relative-mode echo program outputs 42, halts and closes its output |
| Intcode09.CopyVec | day09/src/main.rs:211-216 | copies the common prefix and leaves the rest of the destination unchanged |
| Intcode09.LoadProgram | day09/src/main.rs:218-249 | memory of RAM size holds the program followed by zeros |
| Intcode09.BinaryOp | day09/main.go:133-185 | the in-place arithmetic agrees with Binary, or leaves memory unchanged on a fault |
| Intcode09.JumpOp | day09/main.go:133-185 | the in-place jump agrees with Jump |
| Intcode09.Machine.constructor | day13/main.go:29-40 | a new machine has empty open queues, pc 0, relBase 0 and the given feed |
| Intcode09.Machine.Write | day09/main.go:112-115 | appends to the input queue |
| Intcode09.Machine.CloseInput | day09/src/main.rs:193-210 | marks the input closed |
| Intcode09.Machine.Read | day09/main.go:125-132 | takes the head of the output queue, or reports 0, false once it is closed and empty |
| Intcode09.Machine.Drain | day17/main.go:382-474 | the host's read loop collects exactly the queued output |
| Intcode09.Machine.SendOutput | day09/main.go:120-124 | appends the value and records outGauge |
| Intcode09.Machine.ExecOutput | day09/main.go:145-147 | the in-place output agrees with Output |
| Intcode09.Machine.ExecAdjustBase | day09/main.go:174-176 | the in-place relative-base move agrees with AdjustBase |
| Intcode09.RunFirst | day09/main.go:186-191 | a run with fuel is one step followed, while running, by the rest of the run |
| Intcode09.Machine.ExecInput | day13/main.go:118-122 | the in-place input agrees with Input |
| Intcode09.Machine.Exec | day09/main.go:133-185 | one in-place step performs Step |
| Intcode09.Machine.ExecLoop | day09/main.go:186-191 | the loop performs Run |
| Intcode09.Machine.Execute | day09/main.go:186-191 | Go's Execute performs RunAndCloseOutput |
| Intcode09.Machine.ExecuteClosingInput | day09/src/main.rs:193-210 | Rust's execute performs RunAndCloseInput |
| Permutations.Swap | day07/main.go:169-181 | swapping two positions exchanges them and keeps every other one |
| Permutations.SwapReorders | day07/main.go:169-181 | a swap after position i is a reordering that keeps the prefix |
| Permutations.PermsReorder | day07/main.go:169-181 | every ordering perm passes to its callback is a permutation of the input that keeps the fixed prefix |
| Permutations.SwapsReorder | day07/main.go:169-181 | every ordering the swap loop produces is a permutation that keeps the fixed prefix |
| Permutations.PermsDistinct | day07/main.go:169-181 | on distinct elements perm calls its callback with no ordering twice |
| Permutations.PermsComplete | day07/main.go:169-181 | every permutation that keeps the fixed prefix is passed to the callback |
| Permutations.PermFrom | day09/main.go:197-209 | the recursive perm calls the callback with the orderings Perms lists and restores the array |
| Permutations.VisitSwapped | day09/main.go:203-205 | one pass of the loop visits the orderings of the swapped array and restores it |
| Permutations.Perm | day07/main.go:164-168 | Perm restores the array and calls the callback with exactly the permutations of it, each once when the elements are distinct |
| Permutations.PermsEveryOrdering | day09/main.go:192-196 | the orderings are exactly the permutations of the input, without repeats on distinct elements |
| Fuel.FuelFor | day01/main.go:34 | fuel for a mass is mass / 3 - 2 and is less than a positive mass |
| Fuel.TotalFuel | day01/main.go:27-35 | the loop adds the fuel of every mass |
| Fuel.FoldFuelIsSum | day01/src/main.rs:42 | Rust's fold gives the same sum as the Go loop |
| Fuel.SumFirst | day01/main.go:27-35 | the sum splits into the first mass and the rest |
| Fuel.Chain | day01/main.go:60-64 | the fuel chain is non-negative, zero from a non-positive start and at least its start otherwise |
| Fuel.ChainFuel | day01/main.go:60-64 | the inner loop adds fuel for fuel until the amount is no longer positive |
| Fuel.TotalChainFuel | day01/main.go:53-65 | part 2 adds the chain of every mass |
| Fuel.FuelIter.Next | day01/src/main.rs:20-23 | the iterator replaces its value by the value's fuel and yields it |
| Fuel.LastPositive | day01/src/main.rs:45-47 | the last positive term of a chain has non-positive fuel |
| Fuel.RustDropsLastTerm | day01/src/main.rs:45-47 | the Rust take_while sum is the chain minus its last positive term |
| Fuel.Mass1969 | day01/src/main.rs:45-47 | for mass 1969 the chain is 966 while the Rust take_while gives 961 |
| Fuel.TakeWhilePositiveSum | day01/src/main.rs:45-47 | the corrected sum is non-negative |
| Fuel.CorrectedChainAgrees | day01/main.go:60-64 | summing the iterator's values while they are positive agrees with the Go chain |
| Passwords.RunLength | day04/main.go:41-53 | the run of equal digits ending at i has length between 1 and i + 1 |
| Passwords.PairAtEnd | day04/main.go:55 | a pair exists exactly when an earlier run had length 2 or the final one does |
| Passwords.PairStep | day04/main.go:43-53 | one loop step records a finished run of exactly two |
| Passwords.PairIsDouble | day04/main.go:32-56 | a run of exactly two is in particular a double |
| Passwords.IsValidPass | day04/main.go:13-30 | valid exactly when the digits never decrease and two adjacent digits are equal |
| Passwords.ScanValid | day04/main.go:16-29 | the scan accepts exactly the non-decreasing texts with a double |
| Passwords.DoubleStep | day04/main.go:19-27 | extending the scanned prefix by one digit updates the double and order tests |
| Passwords.IsValidPass2 | day04/main.go:32-56 | part 2 is valid exactly when part 1 is and some run of equal digits has length exactly 2 |
| Passwords.ScanPairs | day04/main.go:39-55 | the run scan accepts exactly the texts with a run of exactly two |
| Passwords.FoldValidSound | day04/src/main.rs:4-16 | Rust's fold computes the double and decrease flags of the whole text |
| Passwords.RustValidAgrees | day04/src/main.rs:4-16 | Rust's is_valid_pass agrees with Go's isValidPass |
| Passwords.FoldRunsSound | day04/src/main.rs:18-34 | Rust's run fold finds a run of exactly two exactly when one exists |
| Passwords.RustValid2Agrees | day04/src/main.rs:18-34 | Rust's is_valid_pass2 agrees with Go's isValidPass2 |
| Passwords.CountValid | day04/main.go:58-71 | a count over a range is at most its length |
| Passwords.Count | day04/main.go:58-71 | the loop counts the valid passwords of both parts over the inclusive range |
| Passwords.Tally | day04/main.go:58-71 | one pass of the loop adds one to each count exactly when the number passes that part |
| Passwords.CountsOrdered | day04/main.go:58-71 | part 2 never counts more than part 1 |
| Passwords.Examples | day04/main.go:13-56 | the puzzle's examples: 111111 and 112233 are valid, 223450 decreases, 123789 has no double, 123444 has no pair |
| Wires.AbsDiff | day03/main.go:22-28 | the result is non-negative and is a - b or b - a |
| Wires.Dist | day03/main.go:30-32 | Manhattan distance is non-negative and zero exactly for equal points |
| Wires.DistSymmetric | day03/main.go:30-32 | the distance is symmetric |
| Wires.Move | day03/main.go:63-72 | U, D, R and L move one unit along their axis; any other letter leaves the point unchanged |
| Wires.Walked | day03/main.go:62-86 | one more unit step moves the position, records the step count of the new cell, and updates the best crossing exactly when the cell is on wire 1 |
| Wires.VisitsLatest | day03/main.go:74-75 | the map of wire 1 holds exactly the visited cells, each with the step count of its latest visit |
| Wires.Improve | day03/main.go:78-83 | keeping the smaller of the current best and a new cost: the result is one of them, and no worse than either when both are set |
| Wires.Cost | day03/main.go:77-83 | the cost of a crossing, distance or summed step counts, is non-negative |
| Wires.BestIsMin | day03/main.go:76-85 | the best found along a wire is at most the cost of every crossing on it, and is either the start value or the cost of one crossing |
| Wires.BestLinesIsMin | day03/main.go:52-91 | the same over every later line of the input, each compared with wire 1 |
| Wires.RunTracks | day03/main.go:62-86 | the unit-step loop of one segment keeps the tracer's state equal to the reference definitions |
| Wires.AdvanceTracks | day03/main.go:63-85 | one unit step keeps the tracer's state equal to the reference definitions for one more letter |
| Wires.VisitedFront | day03/main.go:74-75 | a visit before the last step is a visit of the shorter wire |
| Wires.WalkTracks | day03/main.go:57-87 | the loop over a line's segments keeps the tracer's state equal to the reference definitions |
| Wires.ParseStep | day03/main.go:57-61 | a parsed step takes its letter and strconv.Atoi of the rest; a failed parse is an empty token or a bad number |
| Wires.ParseStepFormat | day03/main.go:57-61 | formatting a step and parsing it back gives the step |
| Wires.GoPartIsMin | day03/main.go:47-98 | each answer is -1 exactly when no later line crosses wire 1, and otherwise the least cost over all crossings |
| Wires.TraceLine | day03/main.go:53-90 | one input line: the first records wire 1's visits, later ones update both bests against it |
| Wires.TraceStep | day03/main.go:57-86 | one step token advances the tracer as the reference Run does |
| Wires.TraceUnit | day03/main.go:63-85 | one pass of the unit-step loop moves, counts, and records or checks the cell exactly as Advance does |
| Wires.TraceGo | day03/main.go:34-99 | the Go program prints the least crossing distance and the least combined step count |
| Wires.Letter | day03/src/main.rs:8-13 | every direction is one of U, D, R, L |
| Wires.ParseDir | day03/src/main.rs:54-60 | a direction parses exactly from U, D, R or L and spells back its letter; any other letter is the panic |
| Wires.ParseSegSpec | day03/src/main.rs:53-61 | a segment parses exactly when its letter is a direction and the rest an unsigned number |
| Wires.ParseSegFormat | day03/src/main.rs:53-61 | formatting a segment and parsing it back gives the segment |
| Wires.ParseLineAll | day03/src/main.rs:53-67 | a line parses exactly when every token does, segment by segment |
| Wires.ParseTokens | day03/src/main.rs:53-67 | the token loop agrees with ParseLine |
| Wires.SplitMeaning | day03/src/main.rs:48-73 | parsing fails exactly when some line fails; wire 1 is the first line and wire 2 every later line concatenated |
| Wires.SplitBad | day03/src/main.rs:48-73 | parsing fails exactly when some line fails to parse |
| Wires.ParseWires | day03/src/main.rs:48-73 | the parsing loop agrees with Split |
| Wires.SplitFails | day03/src/main.rs:48-73 | once a line has failed, the whole parse fails |
| Wires.RustDistAtOrigin | day03/src/main.rs:37-39 | measured against the origin, Rust's dist agrees with the Manhattan distance |
| Wires.RustDistAsWritten | day03/src/main.rs:37-39 | Rust's dist subtracts other.y from self.x: it is 2 and 1 on two points whose Manhattan distance is 3 both ways |
| Wires.RustWalkTracks | day03/src/main.rs:75-126 | Rust's folds keep the tracer's state equal to the reference definitions |
| Wires.RustVisits | day03/src/main.rs:75-90 | the first fold records the visits of wire 1 |
| Wires.VisitSegment | day03/src/main.rs:77-89 | one segment of the first fold advances as the reference Run does |
| Wires.RustCrossings | day03/src/main.rs:92-132 | the second fold finds the least crossing distance and step sum, or None when nothing crosses |
| Wires.CrossSegment | day03/src/main.rs:94-125 | one segment of the second fold advances as the reference Run does |
| Wires.CrossUnit | day03/src/main.rs:95-122 | one pass of the unit-step loop moves, counts, and shrinks the Option minima exactly as Advance does |
| Orbits.AddedMeaning | day06/main.go:21-27 | Add puts b into a's set, creating it when absent, touches no other entry and keeps every set duplicate-free |
| Orbits.AddedIdempotent | day06/src/main.rs:20-22 | adding the same orbit twice is the same as adding it once |
| Orbits.HeightDecreases | day06/main.go:29-35 | under a ranking of the map, every child is lower than its parent |
| Orbits.Checksum | day06/main.go:29-35 | the checksum from depth d is at least d, and exactly d for a leaf |
| Orbits.SumKids | day06/src/main.rs:24-29 | the children's sum is non-negative |
| Orbits.Count | day06/main.go:29-35 | a subtree holds at least its root |
| Orbits.ChecksumShift | day06/main.go:29-35 | starting one level deeper adds the size of the subtree to the checksum |
| Orbits.SumKidsShift | day06/src/main.rs:24-29 | the same for the sum over the children |
| Orbits.ReorderedRanked | day06/src/main.rs:9-11 | listing children in another order keeps the map acyclic under the same ranking |
| Orbits.SumKidsIsSumOf | day06/src/main.rs:26 | the sum over the first i children is the sum of their checksums |
| Orbits.SumOfAppend | day06/src/main.rs:26 | the sum over two lists joined is the sum of the two sums |
| Orbits.SumOfRemove | day06/src/main.rs:26 | taking one body out of a list takes its checksum out of the sum |
| Orbits.MultisetRemove | day06/src/main.rs:26 | removing the same body from two lists with the same bodies leaves two lists with the same bodies |
| Orbits.SumOfPermuted | day06/src/main.rs:26 | the sum over a list of bodies does not depend on their order |
| Orbits.SumOfAgree | day06/src/main.rs:26 | two maps that agree on every listed body's checksum agree on the sum |
| Orbits.KidsReordered | day06/src/main.rs:26 | the sum over a body's children is the same in both maps when each child's checksum is |
| Orbits.ChecksumReordered | day06/src/main.rs:24-29 | the checksum of every body is the same however each body's children are ordered, as the `HashSet` iteration order leaves open |
| Orbits.PathSound | day06/src/main.rs:31-57 | get_path returns an empty path exactly from a node to itself, and otherwise a chain of orbits from `from` whose last node directly holds `to` |
| Orbits.FirstPathSound | day06/src/main.rs:47-55 | the loop over the children returns a chain through one of them |
| Orbits.PathComplete | day06/src/main.rs:31-57 | whenever a chain exists, get_path finds one |
| Orbits.FirstPathFinds | day06/src/main.rs:47-55 | when some child from position i on has a path, the loop finds one |
| Orbits.Reverse | day06/main.go:55-60 | a reversal has the same length and reads the sequence backwards |
| Orbits.ReverseTwice | day06/main.go:55-60 | reversing twice gives back the sequence |
| Orbits.GoPathReversed | day06/main.go:37-53 | Go's GetPath lists the same path as Rust's get_path, upwards instead of downwards |
| Orbits.GoFirstReversed | day06/main.go:46-51 | the same for the loop over the children |
| Orbits.OrbitsMap.constructor | day06/main.go:73-75 | a new map has no orbits |
| Orbits.OrbitsMap.Add | day06/main.go:21-27 | Add updates the map as Added does and keeps the sets duplicate-free |
| Orbits.OrbitsMap.Traverse | day06/main.go:29-35 | Traverse returns the checksum |
| Orbits.OrbitsMap.GetPath | day06/main.go:37-53 | GetPath returns Go's path |
| Orbits.ReverseSlice | day06/main.go:55-60 | reverses the slice in place and returns it |
| Image.CellIndex | day08/main.go:28-30 | cell (i, j) of a w-by-h layer sits at index i * w + j, below w * h, and divides back into i and j |
| Image.CellOf | day08/main.go:28-30 | every index below w * h divides into a row below h and a column below w |
| Image.NewLayer | day08/main.go:23-32 | the new layer has h rows of w cells, and cell (n / w, n % w) holds nums[n] for every n below w * h |
| Image.CellInjective | day08/main.go:28-30 | different indices land on different cells |
| Image.Zeroes | day08/main.go:24-27 | the first loop makes h rows of w zeroes |
| Image.Place | day08/main.go:28-30 | one pass of the second loop puts digit n in its cell and keeps the digits before it in theirs |
| Image.CutCell | day08/main.go:28-30 | after writing digit n, every digit up to n is in its cell |
| Image.CutOther | day08/main.go:28-30 | writing the cell of digit n leaves the cell of any other digit unchanged |
| Image.OtherCell | day08/main.go:28-30 | writing one cell keeps the layer's shape and every other cell |
| Image.CutAll | day08/main.go:23-32 | once all w * h digits are placed, cell (n / w, n % w) holds digit n |
| Image.CutFront | day08/main.go:23-32 | the layer without its last row is the layer cut from the digits before that row |
| Image.RowOfCut | day08/main.go:23-32 | row i of the layer is the i-th slice of w numbers |
| Image.FlattenCut | day08/main.go:23-32 | the rows of the layer, read in order, are the first w * h numbers |
| Image.CountRow | day08/main.go:37-41 | a count over a row is at most its length |
| Image.CountIn | day08/main.go:34-44 | a count over a layer is at most its number of cells |
| Image.CountRowMultiset | day08/main.go:37-41 | the row count is the multiplicity of the value in the row |
| Image.CountInMultiset | day08/main.go:34-44 | the layer count is the multiplicity of the value among all cells |
| Image.CountNum | day08/main.go:34-44 | CountNum counts the cells equal to num |
| Image.SeenIsFirstOpaque | day08/main.go:80-85 | the rendered pixel is the first layer's value that is not 2, or 0 when every layer is transparent there |
| Image.Img.constructor | day08/main.go:59-61 | a new image has no layers |
| Image.Img.AddLayer | day08/main.go:63-65 | appends one layer |
| Image.Img.Render | day08/main.go:67-90 | nothing for an image with no layers or an empty first layer; otherwise a layer of the first layer's shape whose every pixel is the first non-transparent value |
| Image.RenderRow | day08/main.go:78-85 | one pass of the row loop renders the next w pixels and leaves the rest at 0 |
| Image.RenderedStep | day08/main.go:79-84 | writing the pixel at n and nothing else extends the rendered prefix by one |
| Image.Pixel | day08/main.go:80-85 | the inner loop writes the first non-transparent value of one pixel and touches no other |
| Euclid.Gcd | day12/main.go:171-178 | the loop computes the greatest common divisor, and returns a when b is 0 |
| Euclid.DividesCombo | day12/main.go:171-178 | a common divisor of x and y divides x + k * y and x - k * y |
| Euclid.StepKeepsDivisors | day12/main.go:172-176 | one step of the loop keeps the set of common divisors |
| Euclid.GcdIsGreatest | day10/main.go:31-38 | on non-negative arguments, not both zero, the result is a positive common divisor that every common divisor divides |
| Euclid.DivisorBound | day10/main.go:31-38 | a divisor of a positive number is at most that number |
| Euclid.GcdScale | day10/main.go:31-38 | scaling both arguments scales the result |
| Euclid.Lcm | day12/main.go:181-189 | the recursive LCM agrees with the fold over the extra integers; a zero GCD is the division panic, modelled as None |
| Euclid.LcmIsLeast | day12/main.go:181-182 | for positive a and b, a * b / GCD(a, b) is a positive common multiple dividing every positive common multiple |
| Euclid.CoprimeDivides | day12/main.go:181-182 | a number coprime to b that divides s * a must divide s |
| Euclid.DividesTrans | day12/main.go:181-189 | divisibility is transitive |
| Euclid.ExtendLcm | day12/main.go:184-186 | taking the LCM with one more positive number gives the LCM of the longer list |
| Euclid.FoldIsLcm | day12/main.go:184-186 | folding over positive numbers gives the LCM of the whole list |
| Euclid.LcmAllIsLcm | day12/main.go:181-189 | LCM of positive arguments is the least common multiple of all of them |
| Asteroids.Sign | day10/main.go:17-22 | the sign is -1 exactly for negative numbers, and 1 otherwise (0 included) |
| Asteroids.SignAbs | day10/main.go:17-29 | sign times abs gives the number back |
| Asteroids.DirectionFactor | day10/main.go:56-76 | the angle times a positive factor gives the offset back; off the axes that factor is the GCD |
| Asteroids.OnRay | day10/main.go:56-76 | every offset is a positive multiple of its angle |
| Asteroids.DirectionPrimitive | day10/main.go:56-76 | the two components of an angle have no common divisor above 1 |
| Asteroids.DirectionScale | day10/main.go:56-76 | scaling an offset by a positive factor keeps its angle |
| Asteroids.SameAngleIffSameRay | day10/main.go:56-76 | two non-zero offsets have the same angle exactly when positive multiples of them coincide |
| Asteroids.SelfAngle | day10/main.go:56-64 | the station's own offset (0, 0) gets the same angle as the cell below it |
| Asteroids.AnglesMeaning | day10/main.go:113-124 | the angle set holds exactly the angles of the other asteroids |
| Asteroids.CollectMeaning | day10/main.go:114-123 | one row adds exactly the angles of its other asteroids |
| Asteroids.Visible | day10/main.go:110-126 | Visible counts the distinct angles of the other asteroids, at most their number |
| Asteroids.ScanRow | day10/main.go:114-123 | the row loop adds the row's angles and counts new ones only |
| Painting.TurnsInverse | day11/main.go:255-282 | a left and a right turn cancel, four turns one way return to the start, and two lefts equal two rights |
| Painting.Ahead | day11/main.go:284-307 | the cell ahead is one step away: up decreases y, down increases y, left decreases x, right increases x |
| Painting.AheadBack | day11/main.go:284-307 | stepping ahead and then ahead again after turning round returns to the start |
| Painting.Robot.constructor | day11/main.go:223-234 | the robot starts at the origin facing up, with an empty board and a zero box |
| Painting.Robot.GetPaint | day11/main.go:240-246 | an unpainted cell reads black; every painted cell is black or white |
| Painting.Robot.Paint | day11/main.go:248-253 | a color other than black or white is the fatal error with nothing changed; otherwise the current cell takes the color and nothing else changes |
| Painting.Robot.Turn | day11/main.go:255-282 | 0 turns left and 1 turns right; any other value is the fatal error; position, board and box are unchanged |
| Painting.Robot.Forward | day11/main.go:284-307 | the robot moves one cell in its heading and the box grows to contain it |
| Moons.Gravity2 | day12/main.go:34-42 | the pull is -1, 0 or 1, and 0 exactly for equal coordinates |
| Moons.Gravity2Meaning | day12/main.go:34-42 | the pull is +1 towards a larger coordinate and -1 towards a smaller one, and is antisymmetric |
| Moons.PullAntisymmetric | day12/main.go:44-54 | the pulls two moons exert on each other cancel, and a moon does not pull itself |
| Moons.Norm | day12/main.go:72-73 | the sum of absolute values is non-negative and zero exactly for the zero vector |
| Moons.Moon.constructor | day12/main.go:27-32 | a new moon has the given position and zero velocity |
| Moons.Moon.Gravity | day12/main.go:44-54 | the velocity changes by the other moon's pull and the position is unchanged |
| Moons.Moon.Velocity | day12/main.go:56-62 | the position moves by the velocity and the velocity is unchanged |
| Moons.Moon.Energy | day12/main.go:71-75 | the energy is non-negative |
| Moons.MoonEnergyZero | day12/main.go:71-75 | a moon has zero energy exactly when its position or its velocity is zero |
| Moons.RowColCancel | day12/main.go:99-108 | the pulls one moon feels and the pulls it exerts cancel |
| Moons.DoubleZero | day12/main.go:99-108 | the pulls among a set of moons sum to zero |
| Moons.SumAfterGrav | day12/main.go:99-108 | after the gravity pass the velocities sum to the old sum plus all the pulls |
| Moons.GravityConservesMomentum | day12/main.go:99-108 | the gravity pass keeps the sum of the velocities |
| Moons.AfterVelSum | day12/main.go:110-114 | after the velocity pass the positions sum to the old positions plus the velocities |
| Moons.GravSystem.constructor | day12/main.go:93-97 | the system holds the given moons |
| Moons.GravSystem.Positions | day12/main.go:88-90 | the positions of the moons, in order |
| Moons.GravSystem.Velocities | day12/main.go:88-90 | the velocities of the moons, in order |
| Moons.GravSystem.StepGrav | day12/main.go:99-108 | every moon's velocity gains the pull of every other moon, measured at the old positions; positions are unchanged |
| Moons.GravSystem.Pulls | day12/main.go:101-106 | the inner loop adds to moon n the pulls of all the others |
| Moons.GravSystem.StepVel | day12/main.go:110-114 | every moon moves by its velocity, and velocities are unchanged |
| Moons.GravSystem.Step | day12/main.go:116-119 | a step is the gravity pass followed by the velocity pass |
| Moons.GravSystem.EnergyTo | day12/main.go:121-127 | the partial energy is non-negative |
| Moons.GravSystem.Energy | day12/main.go:121-127 | the total energy is the sum over the moons |
| Moons.EnergyZero | day12/main.go:121-127 | the total energy is zero exactly when every moon has zero energy |
| Arcade.EmplaceBlocks | day13/main.go:219-221 | placing a tile removes p from the block set and adds it back exactly when the tile is a block |
| Arcade.EmplaceCount | day13/main.go:219-230 | the block count changes by the block lost and the block gained at p |
| Arcade.Board.constructor | day13/main.go:213-217 | a new board is empty |
| Arcade.Board.Emplace | day13/main.go:219-221 | p holds the tile and every other point is unchanged |
| Arcade.CountOne | day13/main.go:223-231 | visiting one more point adds one to the count exactly when it shows a block |
| Arcade.Board.BlockCount | day13/main.go:223-231 | counts the points holding a block tile |
| Nanofactory.AddToMeaning | day14/main.go:34-40 | Add raises chem's amount by amt, creating the entry when absent, touches no other chemical, and keeps a non-negative cache non-negative for non-negative amt |
| Nanofactory.TakeMeaning | day14/main.go:42-51 | Rm takes between 0 and amt, all of amt when the cache holds that much, nothing for an absent chemical, and leaves other chemicals and non-negativity alone |
| Nanofactory.Cache.constructor | day14/main.go:146 | a fresh cache is empty |
| Nanofactory.Cache.Add | day14/main.go:34-40 | updates the cache as AddTo describes |
| Nanofactory.Cache.Rm | day14/main.go:42-51 | updates the cache and returns the amount as Take describes |
| Nanofactory.OutMulBounds | day14/main.go:74-79 | the number of batches is the least whose total output covers amt: amt <= batches * count < amt + count |
| Nanofactory.CraftMeaning | day14/main.go:63-93 | a successful craft spends non-negative ore, keeps the cache non-negative, leaves at least amt of chem more than before (exactly batches * count for a non-ore chemical), and leaves no chemical of rank at least chem's changed |
| Nanofactory.GatherMeaning | day14/main.go:82-89 | the input loop only adds ore and leaves the chemicals at or above the reaction's rank untouched |
| Nanofactory.ObtainMeaning | day14/main.go:83-88 | obtaining one input spends non-negative ore and touches no chemical ranked above it |
| Nanofactory.Reactions.constructor | day14/main.go:53-57 | a new table holds no reactions |
| Nanofactory.Reactions.Add | day14/main.go:59-61 | the reaction is filed under its output chemical, replacing any earlier one |
| Nanofactory.Reactions.Craft | day14/main.go:63-93 | Craft fails (log.Fatal) exactly when the recursive definition meets a chemical with no reaction, and otherwise returns its ore count and leaves its cache |
| Nanofactory.Reactions.GatherInputs | day14/main.go:82-89 | the input loop agrees with Gather |
| Nanofactory.Reactions.ObtainInput | day14/main.go:83-88 | one input agrees with Obtain |
| Nanofactory.Split | day14/main.go:96 | strings.Split always returns at least one part |
| Nanofactory.SplitFirst | day14/main.go:108-109 | a part with no separator inside, followed by the separator, is split off first |
| Nanofactory.SplitJoin | day14/main.go:108-109 | splitting the join of separator-free parts gives back the parts |
| Nanofactory.FormatAll | day14/main.go:109-113 | formatting a list formats each quantity in place |
| Nanofactory.ParseFormatQuantity | day14/main.go:95-105 | parsing a formatted quantity, with a chemical name free of spaces, commas and equals signs, gives it back |
| Nanofactory.ParseFormatAll | day14/main.go:109-113 | parsing a formatted list gives it back |
| Nanofactory.ParseFormatReaction | day14/main.go:107-118 | parsing a formatted reaction gives it back |
| Fft.IthBlock | day16/main.go:27-29 | index i of the pattern stretched by repeat is the entry of block i / repeat, periodic in repeat * length |
| Fft.Digit | day16/main.go:31-37 | a phase digit lies in 0..9 |
| Fft.PhaseInner | day16/main.go:31-37 | the inner loop computes the absolute value of the dot product with the stretched pattern, mod 10 |
| Fft.Phase | day16/main.go:51-57 | a phase keeps the length and puts at n the digit with offset 1 and repeat n + 1 |
| Fft.UpperTriangular | day16/main.go:51-57 | before position n, the stretched pattern reads its first entry |
| Fft.SliceToNum | day16/main.go:39-49 | -1 for no digits, otherwise the number they spell |
| Fft.Values | day16/main.go:39-49 | turning characters into digits keeps the length and reads each digit |
| Fft.SpelledValues | day16/main.go:39-49 | a string of digits spells the number strconv reads from it |
| Fft.SpelledDigits | day16/main.go:39-49 | the digits of n spell n |
| Fft.TailIsSuffixSum | day16/main.go:62-65 | for non-negative digits, the running value at i is the sum from i to the end, mod 10 |
| Fft.Phase2 | day16/main.go:59-67 | every cell from offset on becomes its suffix sum mod 10, and every cell before it is unchanged |
| Scaffold.Locate | day17/main.go:213-226 | finds a '^' exactly when the grid holds one, and then reports the first one in the last row that has one (the inner loop breaks, the outer one goes on); otherwise -1, -1 |
| Scaffold.Bot.constructor | day17/main.go:213-234 | the bot keeps the grid and its size, starts facing up, and stands where Locate found the '^' |
| Scaffold.Bot.IsPath | day17/main.go:239-244 | a cell is path exactly when it is in bounds and holds '#' |
| Scaffold.Bot.IntersectionMeaning | day17/main.go:246-252 | a cell is an intersection exactly when it and its four neighbours are path, so it lies strictly inside the border |
| Scaffold.Bot.Sum | day17/main.go:254-265 | the double loop adds x * y over every intersection of the grid |
| Scaffold.Bot.RowSumZero | day17/main.go:254-265 | a row's contribution is non-negative and is zero exactly when the row holds no intersection (intersections lie off the border, so x * y > 0) |
| Scaffold.Bot.SumZero | day17/main.go:254-265 | the sum is non-negative and is zero exactly when the grid has no intersection |
| Scaffold.Bot.GetFLR | day17/main.go:266-297 | reports whether the cell ahead, the cell to the left and the cell to the right are path |
| Scaffold.Bot.Forward | day17/main.go:298-312 | moves one cell in the facing direction and keeps the direction |
| Scaffold.Bot.TurnLeft | day17/main.go:313-325 | turns a quarter left in place |
| Scaffold.Bot.TurnRight | day17/main.go:326-338 | turns a quarter right in place |
| Scaffold.Bot.TurnThenForward | day17/main.go:343-354 | after a turn the next move is always a step forward onto path |
| Scaffold.Bot.RouteLetters | day17/main.go:340-356 | the route holds only F, L and R |
| Scaffold.Bot.RouteEndsOnPath | day17/main.go:340-356 | the route ends at the start or on path |
| Scaffold.Bot.RouteEnd | day17/main.go:340-342 | the route stops where nothing is ahead, left or right, or where the fuel runs out |
| Scaffold.Bot.Move | day17/main.go:343-355 | one pass of the loop makes the move Next prescribes |
| Scaffold.Bot.RouteTurns | day17/main.go:340-356 | every turn is followed by a step forward |
| Scaffold.Bot.RouteEndsForward | day17/main.go:340-356 | a route that stopped on its own ends with a step forward |
| Scaffold.Bot.RouteStep | day17/main.go:340-356 | one step of the loop moves the route on by one letter |
| Scaffold.Bot.Walk | day17/main.go:340-356 | the first loop records the route and leaves the bot where the route ends |
| Scaffold.Bot.FindDirections | day17/main.go:339-380 | returns the run-length encoding of the route and leaves the bot at its end |
| Scaffold.Lead | day17/main.go:360-364 | the leading run of F is within the string and is not empty when the string starts with F |
| Scaffold.LeadMeaning | day17/main.go:360-364 | the leading run is all F and is followed by a letter other than F |
| Scaffold.LeadOfRun | day17/main.go:360-364 | a run of F followed by another letter is the leading run |
| Scaffold.TokensAfterRun | day17/main.go:359-379 | a run of F from start to i becomes one run token, then the tokens from i on |
| Scaffold.ScanForward | day17/main.go:360-363 | counting one more F keeps the scan's invariant |
| Scaffold.ScanTurn | day17/main.go:365-371 | writing a turn letter and a comma keeps the scan's invariant |
| Scaffold.WriteRun | day17/main.go:365-368 | writing the pending count and a comma closes the run token |
| Scaffold.RunLength | day17/main.go:358-379 | the encoding loop turns the moves into their token text |
| Scaffold.LeadSplit | day17/main.go:358-379 | the moves are their leading run of forward moves followed by the rest |
| Scaffold.SpelledCons | day17/main.go:358-379 | spelling a token in front of others writes its moves in front of theirs |
| Scaffold.SpelledTokens | day17/main.go:358-379 | the tokens spell out the moves again: nothing is lost by the encoding |
| Scaffold.TokensWellFormed | day17/main.go:358-379 | the tokens of a route have positive runs, turns L or R only, and no two runs in a row |
| Scaffold.CommaAfter | day17/main.go:358-379 | the first comma of a token followed by a comma is at the token's end |
| Scaffold.ExpandToken | day17/main.go:358-379 | reading back one comma-terminated token: digits stand for that many F, anything else for itself |
| Scaffold.ExpandTokenText | day17/main.go:365-371 | reading back one written token gives the moves it stands for |
| Scaffold.TextCons | day17/main.go:358-379 | the text of a token list is the first token's text followed by the rest |
| Scaffold.ExpandText | day17/main.go:358-379 | reading back the text of well-formed tokens spells them out |
| Scaffold.ExpandEncoded | day17/main.go:358-379 | reading back the encoding of F/L/R moves gives the moves |
| Scaffold.DirectionsReadBack | day17/main.go:339-380 | the directions string reads back to exactly the route the bot walks |
| KeyMaze.ClassesDisjoint | day18/main.go:35-53 | no character is both open and a door, open and a wall, or a door and a wall |
| KeyMaze.KeyOf | day18/main.go:187-197 | the key for a door letter is a key letter |
| KeyMaze.KeyOfOneToOne | day18/main.go:187-197 | two doors share a key exactly when they are the same door |
| KeyMaze.Manhattan | day18/main.go:89-98 | the Manhattan distance is non-negative |
| KeyMaze.ManhattanMetric | day18/main.go:89-98 | the distance is symmetric, is zero exactly between equal points, and obeys the triangle inequality |
| KeyMaze.AdjacentCases | day18/main.go:199-214 | the points at distance 1 are exactly the four that neighbors tries |
| KeyMaze.IndexCell | day18/main.go:62-75 | classifying one cell extends the index: exactly the entrances read so far, and every key and door letter read so far with the position where it was last seen |
| KeyMaze.EnterStep | day18/main.go:64-65 | appending an entrance cell, and only such a cell, keeps the list of entrances read so far exact |
| KeyMaze.GatherStep | day18/main.go:66-71 | recording a key (or door) cell at its position, and nothing for other cells, keeps every letter of that kind read so far at its last position |
| KeyMaze.Index | day18/main.go:55-76 | scanning the whole grid leaves the index of every cell |
| KeyMaze.NextRow | day18/main.go:62-75 | the end of a row is the start of the next |
| KeyMaze.LeastKeyExists | day18/main.go:258-262 | a non-empty key set has a least letter |
| KeyMaze.LeastKey | day18/main.go:258-262 | the chosen letter is in the set and no greater than any other |
| KeyMaze.ConsIncreasing | day18/main.go:262 | a letter below every letter of an increasing list extends it to an increasing list |
| KeyMaze.KeyListMembers | day18/main.go:258-263 | the sorted key list holds exactly the set's letters, each once |
| KeyMaze.KeyListSorted | day18/main.go:258-263 | the sorted key list is strictly increasing |
| KeyMaze.HeadIsLeast | day18/main.go:258-263 | the head of a strictly increasing list of a set's letters is the set's least letter |
| KeyMaze.TailKeys | day18/main.go:258-263 | the tail of such a list is a strictly increasing list of the other letters |
| KeyMaze.IncreasingUnique | day18/main.go:258-263 | any strictly increasing list of exactly the set's letters is the sorted key list |
| KeyMaze.WritePositions | day18/main.go:252-257 | each position is written as x, a comma, y and a semicolon, in order |
| KeyMaze.SortKeys | day18/main.go:258-262 | collecting the keys and sorting them gives the increasing list of the set's letters |
| KeyMaze.ToState | day18/main.go:250-265 | the state key is the written positions followed by the sorted held keys |
| KeyMaze.PartialAsWrittenCountsDeadEnd | day18/main.go:285-289 | as written, a dead end (-1) two steps away yields the candidate 1, which is kept |
| KeyMaze.Partial | day18/main.go:285-289 | a candidate exists exactly when the rest of the tour exists, and it is the step count plus the rest |
| KeyMaze.PartialAgrees | day18/main.go:285-289 | the written sum and the corrected one agree when the rest exists or the key is at distance 0 |
| KeyMaze.KeySet.constructor | day18/main.go:325 | the search starts holding no keys |
| KeyMaze.Maze.constructor | day18/main.go:55-87 | the maze keeps its grid, its cache starts empty, and it lists exactly the entrance cells, the door letters with where they stand, and the key and door letters it has positions for |
| KeyMaze.Maze.InsideWalls | day18/main.go:199-214 | in a maze walled all round, every cell that is not a wall lies off the border, so its four neighbours are in the grid |
| KeyMaze.Maze.KeyInside | day18/main.go:199-214 | every key stands off the border |
| KeyMaze.Maze.PassableMeaning | day18/main.go:187-197 | a door is passable exactly when its key is held, a wall never is, open cells always are |
| KeyMaze.Maze.Neighbors | day18/main.go:199-214 | returns at most four points, exactly the passable neighbours of pos |
| KeyMaze.Maze.WalkExtend | day18/main.go:232-236 | a walk that stops on no fresh key extends by one step |
| KeyMaze.Maze.PushNeighbors | day18/main.go:232-237 | pushes each neighbour that is neither closed nor queued, one step further, and afterwards every neighbour is closed or queued |
| KeyMaze.Maze.CloseOne | day18/main.go:223 | closing another interior cell shrinks the set of cells still open to the search |
| KeyMaze.Maze.WalkStaysClosed | day18/main.go:216-240 | once the queue is empty, every walk from the start ends on a closed cell |
| KeyMaze.Maze.RecordKey | day18/main.go:225-228 | recording a fresh key at its walk length keeps every recorded key reached at its distance |
| KeyMaze.Maze.PopFacts | day18/main.go:222-223 | the popped cell is interior, reached at its g, queued and not closed, and the rest of the queue stays reached |
| KeyMaze.Maze.CloseStep | day18/main.go:223-237 | closing the popped cell keeps the search invariant |
| KeyMaze.Maze.PopShortest | day18/main.go:222 | the queue entry with least f is reached by no shorter walk, and lies on the current level or the next |
| KeyMaze.Maze.LayerStep | day18/main.go:222-237 | closing it at that distance and queuing its neighbours one further keeps the layered invariant |
| KeyMaze.Maze.KeyStep | day18/main.go:225-228 | every recorded key stays at the distance of its closed cell |
| KeyMaze.Maze.Expand | day18/main.go:221-237 | one pass of the loop keeps the invariants and closes one more interior cell |
| KeyMaze.Maze.Close | day18/main.go:223-237 | the body after the pop keeps the invariants with the popped cell closed at its distance |
| KeyMaze.Maze.Reachable | day18/main.go:216-240 | records exactly the fresh keys some walk reaches, each at the length of a walk to it, and, when no key letter appears twice, at the length of a shortest walk |
| KeyMaze.Maze.SearchDone | day18/main.go:239 | an emptied queue leaves what Reachable promises |
| KeyMaze.Maze.AllFoundSnoc | day18/main.go:244-246 | the search from one more entrance extends the list of results |
| KeyMaze.Maze.ReachableN | day18/main.go:242-248 | one search result per entrance, in order, each what Reachable promises |
| KeyMaze.Maze.Salesman | day18/main.go:267-298 | returns 0 when all keys are held; otherwise caches its result under the state key, returns an earlier cached result unchanged, answers at least -1, and gives back the key set as it found it (it uses the corrected candidate sum; see Findings) |
| KeyMaze.Maze.TryKeys | day18/main.go:279-294 | trying each reachable key keeps the key set; the best candidate never exceeds the best so far, and a new best is at least the distance to some reachable key (it uses the corrected candidate sum, skipping a key whose rest is -1; see Findings) |
| Frontier.InValues | day18/main.go:153-156 | a value is in the open set's value set exactly when some queued item holds it |
| Frontier.LeastExists | day18/main.go:168-172 | a non-empty queue has an item of least f |
| Frontier.RemoveAt | day18/main.go:168-172 | removing one item of a queue with distinct values keeps them distinct and removes exactly its value |
| Frontier.Relayer | day18/main.go:222-236 | popping the least item of a queue on levels g and g + 1 and pushing items one further leaves a queue on the popped level and the next |
| Frontier.NearNext | day18/main.go:153-156 | a queued value is queued within the next level |
| Frontier.LeastWithin | day18/main.go:168-172 | the least item's g is no larger than that of any queued value |
| Frontier.OpenSet.constructor | day18/main.go:142-147 | a new open set is empty |
| Frontier.OpenSet.Empty | day18/main.go:149-151 | true exactly when nothing is queued |
| Frontier.OpenSet.Has | day18/main.go:153-156 | true exactly when some queued item holds the value |
| Frontier.OpenSet.Push | day18/main.go:158-166 | appends the item to the queue and adds its value to the value set |
| Frontier.OpenSet.Pop | day18/main.go:168-172 | removes and returns an item of least f, and drops its value from the value set |
| Frontier.Visit | day18/main.go:233-236 | a neighbour neither closed nor queued is pushed at g, otherwise nothing changes |
| Frontier.PushAll | day18/main.go:232-237 | after the loop every neighbour is closed or queued, and only neighbours at g were added |
| PortalMaze.ClassesDisjoint | day20/main.go:30-44 | the maze characters are exactly '.' and '#', no cell is both path and wall, and a teleporter letter is not a maze character |
| PortalMaze.RingUnique | day20/main.go:53-64 | the ring height, and the ring width, that the scans describe are each unique |
| PortalMaze.RingHeight | day20/main.go:53-58 | the loop down the middle column returns -1 when every row from 2 to the middle belongs to the maze, otherwise the first row that does not, less 2 |
| PortalMaze.RingWidth | day20/main.go:59-64 | the same along the middle row |
| PortalMaze.PairKeeps | day20/main.go:75-80 | pairing a fresh end with a waiting one joins them both ways, and the teleporter map stays symmetric with the waiting ends apart |
| PortalMaze.PairLevel0 | day20/main.go:75-80 | every teleporter and waiting end stays on level 0 |
| PortalMaze.Portals.constructor | day20/main.go:69-70 | the teleporter maps start empty |
| PortalMaze.Portals.Mark | day20/main.go:75-80 | a label seen before joins the two ends and stops waiting; a label seen first waits at this end |
| PortalMaze.Portals.Scan | day20/main.go:71-162 | a letter at the scanned cell pairs the end with the two-letter label read there; any other cell changes nothing; everything stays on level 0 |
| PortalMaze.Maze.constructor | day20/main.go:173-180 | the maze keeps its grid, size, teleporters, start and end |
| PortalMaze.Maze.MoveCases | day20/main.go:274-287 | a walking move goes to one of the four neighbouring cells |
| PortalMaze.Maze.Adjacent | day20/main.go:276-287 | returns at most four points, exactly the walking moves from pos, up, down, left and right |
| PortalMaze.Maze.Neighbors | day20/main.go:274-292 | returns at most five points, exactly the steps of the flat maze: path neighbours and the teleporter exit, all on level 0 |
| PortalMaze.Maze.Neighbors2 | day20/main.go:325-352 | returns at most five points, exactly the steps of the recursive maze: path neighbours on the same level, an inner portal one level down, an outer portal one level up and never above level 0 |
| PortalMaze.Maze.StepInRange | day20/main.go:274-352 | a step from an interior cell on a non-negative level stays interior and on a non-negative level |
| PortalMaze.Maze.WalkInRange | day20/main.go:274-352 | every cell of a walk from the start is interior on a non-negative level |
| PortalMaze.Maze.FlattenWalk | day20/main.go:274-352 | dropping the levels of a recursive walk gives a walk of the flat maze, so the flat distance never exceeds the recursive one |
| PortalMaze.Maze.WalkExtend | day20/main.go:305-309 | a walk extends by one step |
| PortalMaze.Maze.PopShortest | day20/main.go:299 | the queue entry with least f is reached by no shorter walk, and lies on the current level or the next |
| PortalMaze.Maze.LayerStep | day20/main.go:299-310 | closing it at that distance and queuing its neighbours one further keeps the layered invariant |
| PortalMaze.Maze.PushNeighbors | day20/main.go:305-310 | pushes each neighbour neither closed nor queued, one step further, and afterwards every neighbour is closed or queued |
| PortalMaze.Maze.CloseOne | day20/main.go:300 | closing another interior cell shrinks the set of flat cells still open |
| PortalMaze.Maze.Expand | day20/main.go:299-310 | one pass of the loop either pops the end at its shortest distance or keeps the invariants, closing one more interior cell in the flat maze |
| PortalMaze.Maze.WalkStaysClosed | day20/main.go:312 | once the queue is empty, every walk from the start ends on a closed cell |
| PortalMaze.Maze.StartSearch | day20/main.go:295-297 | with only start queued at 0 and nothing closed, the search invariants hold |
| PortalMaze.Maze.BFS | day20/main.go:294-313 | returns the length of a shortest walk from start to end, or -1 exactly when no walk reaches the end |
| PortalMaze.Maze.BFS2 | day20/main.go:354-373 | within the fuel, returns the length of a shortest recursive walk from start to end on level 0, or -1 when none reaches it |
| PortalMaze.Flat | day20/main.go:274-292 | a flattened walk keeps each cell's position and moves it to level 0 |
| PortalMaze.NewMaze | day20/main.go:46-181 | fails when a ring is missing, or when the AA or ZZ label has no waiting end, and otherwise builds the maze over the grid, starting at AA and ending at ZZ, with every teleporter on level 0 |
| Shuffle.FollowInDeck | day22/main.go:32-48 | a position on the deck stays on the deck through any sequence of techniques |
| Shuffle.PositionInDeck | day22/main.go:46-48 | the position a x + b of a card is a deck position and the truncating remainder equals the mathematical one |
| Shuffle.ReversePosition | day22/main.go:32-35 | the new coefficients give the reversed position of every card |
| Shuffle.CutPosition | day22/main.go:37-39 | the new offset gives the position after cutting n cards |
| Shuffle.DealPosition | day22/main.go:41-44 | the new coefficients give the position after dealing with increment n |
| Shuffle.Card.constructor | day22/main.go:24-30 | a new deck is in factory order: card x is at x mod size |
| Shuffle.Card.FindCard | day22/main.go:46-48 | a card's position is on the deck |
| Shuffle.Card.Reverse | day22/main.go:32-35 | every card moves to size - 1 - its old position |
| Shuffle.Card.Cut | day22/main.go:37-39 | every card moves to its old position less n, mod size |
| Shuffle.Card.DealIncr | day22/main.go:41-44 | every card moves to n times its old position, mod size |
| Shuffle.Card.Shuffle | day22/main.go:76-99 | every card ends where the techniques, applied in order, take its old position |
| Shuffle.PositionAfter | day22/main.go:73-105 | the answer is where the techniques take card x of a fresh deck, and it is on the deck |
| Fuel.FuelIter.constructor | day01/src/main.rs:12-14 | the iterator starts at the module's mass |
| Fuel.TakeWhileSum | day01/src/main.rs:46 | the Rust sum of the fuel chain is non-negative |
| Intcode05.Machine.MemAt | day05/main.go:157-160 | reads one cell of the state |
| Intcode07.IterateRunning | day07/src/main.rs:184-199 | a running step is followed by the rest of the run |
| Intcode07.IterateStopped | day07/src/main.rs:184-199 | a stopping step ends the run there |
| Moons.AfterGrav | day12/main.go:99-108 | the gravity pass keeps the number of moons |
| Moons.AfterVel | day12/main.go:110-114 | the velocity pass keeps the number of moons |
| Nanofactory.SplitWhole | day14/main.go:96 | a string without the separator splits into itself alone |
| Nanofactory.NoMatchByChar | day14/main.go:108-109 | a string missing one character of the separator holds no occurrence of it |
| Nanofactory.FormatChars | day14/main.go:95-105 | a formatted quantity holds only digits, a minus sign, a space and the chemical's letters |
| Nanofactory.FormatNoMatch | day14/main.go:107-113 | a formatted quantity holds neither a comma nor an equals sign, so it never matches the separators |
| Nanofactory.JoinNoEquals | day14/main.go:108 | joining parts without '=' with ", " adds none |
| Scaffold.CommaAt | day17/main.go:358-379 | the first comma lies within the string |
| Scaffold.TextSnoc | day17/main.go:358-379 | writing one more token appends its text |
| KeyMaze.Maze.NoShorter | day18/main.go:222 | no walk reaches the least queued cell in fewer steps than its g |
| KeyMaze.Maze.ExitAt | day18/main.go:232-236 | where a walk leaves the closed cells after j steps, it enters a cell queued within j |
| KeyMaze.Maze.SettledWithin | day18/main.go:222-223 | a closed cell a walk passes after j - 1 steps was closed at distance at most j - 1 |
| KeyMaze.Maze.StepNear | day18/main.go:232-236 | a step out of a walked-through cell closed within n - 1 is queued within n |
| KeyMaze.Maze.QueueAlong | day18/main.go:232-236 | queuing the neighbours of a cell reached in g steps keeps every queued item reachable at its g |
| PortalMaze.Maze.NoShorter | day20/main.go:299 | no walk reaches the least queued cell in fewer steps than its g |
| PortalMaze.Maze.ExitNear | day20/main.go:299-310 | a walk ending outside the closed cells passes, after j steps, a cell queued within j |
| PortalMaze.Maze.ExitAt | day20/main.go:305-309 | where a walk leaves the closed cells after j steps, it enters a cell queued within j |
| PortalMaze.Maze.StartNear | day20/main.go:296 | a walk whose first cell is still open starts at the start, queued at 0 |
| PortalMaze.Maze.SettledWithin | day20/main.go:299-300 | a closed cell at the end of a walk of n steps was closed at distance at most n |
| PortalMaze.Maze.StepNear | day20/main.go:305-309 | a step out of a cell closed within n - 1 is queued within n |
| PortalMaze.Maze.QueueAlong | day20/main.go:305-309 | queuing the neighbours of a cell reached in g steps keeps every queued item reachable at its g |
| PortalMaze.Maze.PopFacts | day20/main.go:299-300 | the popped cell is in range, reached at its g, queued and not closed, and the rest of the queue stays reached |
| PortalMaze.Maze.CloseStep | day20/main.go:300-310 | closing the popped cell, when it is not the end, keeps the search invariant |

## Left out

- Every `main`: opening and scanning the puzzle input, `fmt`/`println!` output, and the hard-coded answers and movement scripts. Inputs are taken as already-parsed sequences.
- Rendering: `Layer.Print` (day 8), `Robot.Print` (day 11), `Board.Print` (day 13), `Maze.Print` (day 20), and the ASCII decoding of machine output in the day 17 and day 21 hosts.
- Concurrency: goroutines, `sync.WaitGroup`, crossbeam and tokio threads, and the amplifier feedback loops of day 7 and day 9. A channel is a FIFO sequence plus a closed flag. Its capacity of 2 and its blocking are not modelled. A read that would block needs a non-empty or closed queue, and an input that would block is a `Blocked` step that changes nothing.
- Rust `send_out` on a dropped receiver (days 7 and 9): the error path of a channel whose other end is gone is not modelled, because no receiver is modelled.
- The `permutohedron::Heap` crate used by the Rust day 7: it is foreign code. The Go `perm` is modelled by `Permutations`.
- `container/heap` internals (days 18 and 20): the open set is a sequence from which `Pop` removes some item of least f. Among several items with equal f, which one the heap picks is not modelled, and the proofs hold for any choice.
- Go map and Rust `HashMap`/`HashSet` iteration order. Day 6 children are kept in insertion order. `Board.BlockCount` picks keys in any order. In `Salesman` the keys are tried in the map's order.
- `Angle.Arctan` and `Grid.OrderAngles` (day 10): they order by floating-point `atan2`, so the vaporisation order is not modelled.
- `GetX`/`GetY`/`GetZ` and the cycle search in the day 12 `main`: they are string formatting plus a host-level search. The period arithmetic they feed (`GCD`, `LCM`) is modelled.
- `Card.Inverse` (day 22): it relies on `big.Int.ModInverse`, is foreign, and is never called.
- Integer width: Go `int`/`int64` and Rust `i32`/`usize` are unbounded integers here. Overflow and wrap-around are not modelled. This matters for day 22, where `c.b * n` can exceed 64 bits on large decks.
- Shuffle.Card.Cut: requires `-size < n < size`. Outside that range Go's `%` can leave b negative.
- Shuffle.Card.DealIncr: requires `n >= 0`, the only increments the puzzle deals.
- Fft.Phase2: the offset is a `nat`, because a negative offset would index `v[-1]` and panic in Go.
- Fft.Phase2: that the tail rule equals a full phase when the offset lies in the second half of the signal is not proved. Only the suffix-sum meaning is proved.
- Scaffold.Bot.constructor: the grid must be rectangular, as the camera output is. The same holds for `KeyMaze.Maze.constructor` and `PortalMaze.NewMaze`.
- Image.NewLayer: requires at least `w * h` numbers. Go slices `nums[:w*h]` and panics on a shorter slice. The day 8 `main` passes the remaining digits one chunk at a time, so every chunk is full when the input length is a multiple of `w * h`; `Render` passes exactly `w * h`.
- Image.Img.Render: requires every layer to cover the first layer's `h` rows of `w` cells. Go reads `m[k][i][j]` and panics on a smaller layer. Every layer the day 8 `main` builds has the same size.
- Fft.Ith: requires a non-empty pattern and `repeat > 0`. Go divides by `repeat` and takes `% len(v)`, which panics on zero. The same `requires` holds for `Fft.PhaseInner` and `Fft.Phase`. The day 16 `main` passes the fixed pattern 0, 1, 0, -1 and repeats from 1 up.
- PortalMaze.Maze.BFS: requires `Valid()`: every path cell, every teleporter exit and the start lie off the grid's border. Go reads the four neighbours of every cell it visits and would index outside the grid for a path cell on the border. `PortalMaze.NewMaze` does not establish this; the puzzle's mazes have a two-cell label margin, so it holds there. The same holds for `PortalMaze.Maze.BFS2`.
- PortalMaze.NewMaze: requires a non-empty first row. Go reads `len(grid[0])` and then `grid[0][i]`, which panics on an empty grid.
- Shuffle.Card.FindCard: requires `size != 0`. Go's `% c.size` panics on a zero-card deck.
- Shuffle.Card.Reverse: requires `Valid()`, which asks `0 <= a < size`. A one-card deck from `NewCard(1)` has `a = 1`, so it is excluded, although Go reverses it without trouble (both coefficients become 0). The same holds for `Shuffle.Card.Cut`, `Shuffle.Card.DealIncr` and `Shuffle.Card.Shuffle`. The day 22 `main` builds a deck of 10007 cards.
- Frontier.OpenSet.Pop: requires a non-empty queue. Go's `heap.Pop` on an empty heap panics; every search loop tests `Empty` first.
- KeyMaze.Maze.Reachable: requires a walled maze (every border cell `#`) and an entrance off the border. Go reads the four neighbours of every cell it visits, so a path cell on the border would index outside the grid and panic. The same `requires` holds for `KeyMaze.Maze.ReachableN`, `KeyMaze.Maze.Salesman` and `KeyMaze.Maze.TryKeys`. The puzzle's mazes are walled.
- KeyMaze.Maze.Reachable: shortest distances are proved only when no key letter appears twice. With a repeated letter, Go overwrites `reachable[k]` with the later find.
- KeyMaze.Maze.TryKeys: combines each key's distance with the rest of the tour through the corrected `KeyMaze.Partial`, which skips a key whose rest is -1. Go adds the -1 and keeps the sum when it is not negative (day18/main.go:285-289). So on a maze where taking a key leaves the other keys unreachable, Go's `Salesman` can return a small non-negative number where the model's returns -1 or a longer tour. `KeyMaze.PartialAsWrittenCountsDeadEnd` states the written behaviour and `KeyMaze.PartialAgrees` says where the two agree.
- KeyMaze.Maze.Salesman: states the cache, the base case and the key set it restores. That the result is the length of a shortest tour collecting every key is not stated.
- KeyMaze.ToState: the state key is proved equal to the written positions plus the sorted keys. That distinct states get distinct keys is not proved.
- Orbits.OrbitsMap.Traverse: the recursive walks require a ranking of every body in the map, so every map with a cycle is excluded. Go recurses forever only on a cycle reachable from the body it starts at; a map whose only cycle lies where the walk never goes is handled by Go but excluded by the model. The same holds for `Orbits.OrbitsMap.GetPath` and `Orbits.Checksum`.
- Nanofactory.Reactions.Craft: requires a ranking of the chemicals, every output count positive and every input count non-negative. A cyclic recipe makes Go recurse forever, and a zero output count divides by zero.
- PortalMaze.NewMaze: proves that every teleporter is on level 0 and that AA and ZZ exist exactly when the maze is built. That the full teleporter map is symmetric is proved one pairing at a time (`PortalMaze.PairKeeps`, for an end not yet seen), not for the whole scan.
- PortalMaze.Maze.BFS2: takes a fuel bound. On a recursive maze whose end is unreachable, Go's search need not stop.
- The machine run loops (`Execute`) take a fuel bound for the same reason. A program that never halts is a run that is still `Running` when the fuel is spent. The same holds for `Scaffold.Bot.Walk` and `Scaffold.Bot.FindDirections` on a scaffold whose path loops.
- The Rust day 6 `HashSet` of children: it is a set with no order. The model lists children in insertion order. `Orbits.ChecksumReordered` proves that the checksum is the same for any order of any child lists. For the path search, order independence is not stated.

## Findings

| source | as written | input that shows it | evidently intended | confidence | as-written member | corrected member |
|---|---|---|---|---|---|---|
| day01/src/main.rs:45-47 | `take_while(\|&x\| (x / 3 - 2) > 0)` keeps a fuel value only if that value's own fuel is positive, so the last positive term of the chain is dropped | mass 1969: the chain 654, 216, 70, 21, 5 sums to 966, but the Rust sum is 961 | sum every positive fuel value, as the Go solution does | not executed | Fuel.RustDropsLastTerm | Fuel.CorrectedChainAgrees |
| day03/src/main.rs:37-42 | `Point::dist` subtracts `other.y` from `self.x` | `dist((2,0),(0,1))` is 2 and `dist((0,1),(2,0))` is 1, where the Manhattan distance is 3 | subtract `other.x` from `self.x` (harmless in the program, which only measures from the origin) | not executed | Wires.RustDistAsWritten | Wires.DistSymmetric |
| day18/main.go:285-289 | `partial := i + m.Salesman(next, keys)` adds the step count to a dead end's -1 before testing `partial < 0` | a key 2 steps away after which no tour completes gives the candidate 1, which is kept as a path | skip the key when the rest of the tour is -1 | not executed | KeyMaze.PartialAsWrittenCountsDeadEnd | KeyMaze.PartialAgrees |
