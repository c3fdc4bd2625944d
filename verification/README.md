# A verified model of the compiler backend

This project states in Dafny what the backend of the compiler promises and proves it for all inputs.
Its core is the mid-level compiler over `RuntimeProgram`, a flat vector of instructions over 64-bit
slots with jumps, calls and returns:

- **Meaning.** `Ir` and `Semantics` give every instruction a small-step meaning: program counter, slots,
  return stack, output so far, and the ways to stop (exit, hardware trap, running past the end, returning
  with nothing pending). Whatever the outside world answers is an arbitrary function of the trace.
  `SameBehaviour` says that each of two programs can be observed to have done whatever the other can;
  a program that stops and one that runs for ever are told apart.
- **Optimizer** (`src/backend/optimizer.rs`). `CopyPropagation`, `Compaction`, `Superoptimizer`, `Scheduler`
  and `Layout` are the passes as loops over the program, each proved against a definition of its result;
  `CopyCorrectness`, `ScheduleCorrectness` and `LayoutCorrectness` prove that these results behave like the
  program they came from, and `Pipeline` puts the four together. Costs, ranks, priorities and profile
  counts are arbitrary inputs.
- **Analyses** (`src/backend/lir.rs`). `Blocks` (control flow), `Ssa`, `SsaBuild`, `SsaNaming` (value names),
  `SsaConverge` (why naming settles), `MemorySsa` (versions of memory objects), `DemandedBits`, `DemandExact`
  (which demands are enough),
  `SsaVerify` (the assembled program and its consistency test), `KnownBitsFacts`, `KnownBitsSweep`, `Dominators`,
  `BytePacking`, `BytePackingCorrectness`, `Liveness` and `Intervals`.
- **Code generation** (`src/backend/x86_64.rs`). `RegAlloc` and `RegAllocCorrectness` (registers and stack
  words instead of slots), `Fusion`, `FusionCorrectness`, `FusionRuns` (multiply-add and select fusions),
  `CountedLoops`, `CountedLoopCorrectness`, `ExactUnroll`, `ExactUnrollCorrectness`, `ExactUnrollRuns`,
  `UnrollEntry`, `UnrollNecessity` (loop control), `Narrowing` (32-bit instructions).
- **Beside the compiler.** `Allocator` and `AllocatorProtocol` (the sharded allocator under all
  interleavings), `Features` and `Resolver` (the package resolver's worklist), `HashTable` and `HashJoin` (the
  grouped-probe table with its bloom filter), `Text`, `Profile`, `ProfileText` and `ProfileStore` (the profile
  format and its raw counters).

`Words` defines the bit operations by recursion on binary digits and proves the laws the rest uses.
`Counterexamples`, `UnrollCounterexamples` and `NarrowingCounterexample` hold programs on which a pass or a plan goes
wrong when one of the preconditions below is dropped: these are what the code itself relies on, not limits of the
proofs.

Preconditions used above: slots and targets are in range, a target equal to the length meaning the end
(`verify_runtime_program`, `src/backend/lir.rs:1737-1768`). For layout, the last block stays last or ends in a jump,
return or exit. `LoadSeed` ignores its input, as the emitted code does (`src/backend/x86_64/emit_impl.rs:818-876`).
Where the code differs from what its comments suggest, the model follows the code: a group whose mask slot is also
its coefficient slot is offered for fusion, the loop plans do not look for jumps into the middle of a loop, and the
search for later reads does not follow returns.

The exact-unroll plan asks only that guards and increments be equal in number, and takes the last textual write before
the header for the definition of the induction slot. This is not enough. `SafeToUnroll` is a condition on the program
text that is: the last increment comes after the last guard (or no pass begins), nothing outside jumps into the loop,
and on every path of control into the header the last write of the slot is that definition. `CheckUnroll` decides it,
and for loops that satisfy it the emitted code is right on all runs (`SafeUnrollingPreservesRuns`). The part about
guards is exact: it holds if and only if the suppressed guards succeed in every pass (`SuppressedSucceedIff`), and
where it fails every run that enters the loop with its start value comes to a suppressed guard that stops the
original, or stops in the body (`LateGuardFails`). `BypassBreaksUnrolling` and `LateGuardBreaksUnrolling` are programs
on which each part fails.

Demanded bits decide where 32-bit instructions are emitted. A closed demand is not enough for that: a sum passes on
the demand of its result without the lower bits that carry into it, a signed shift without the sign, and a 32-bit
right shift loses the bits that come down from the upper half. `AllAdequate` says per instruction, in terms of its
operator and its demand alone, that none of this happens; `KeepsIff` and `NarrowShiftIff` show that it is exact for
single operations, `NarrowingPreservesRuns` that it is enough for whole programs, and `ShiftBreaksNarrowing` is a
program that prints something else without it.

## Model

| member | source | states |
|---|---|---|
| `Pipeline.OptimizeRuntimeProgram` | src/backend/optimizer.rs:68-95 | for every in-range program, every cost table and every profile: the optimized program can be observed to do exactly what the original does (outputs, and exit, trap, end, underflow or divergence) whenever the placement of blocks is safe, which it is without a profile and for every program that ends in an unconditional transfer; each stage result is the one its pass defines |
| `Pipeline.LayOut` | src/backend/optimizer.rs:1322-1484 | laying a program out by any profile, matching or stale, keeps its behaviour whenever the last block stays last or ends in an unconditional transfer |
| `Execution.ExecFootprint` | src/backend/lir.rs:2378-2533 | an instruction depends only on the slots `read_slots` lists and changes only those `write_slots` lists |
| `Execution.ExecWrites` | src/backend/lir.rs:2487-2533 | an instruction changes no slot outside `write_slots` |
| `Execution.ExecMapped` | src/backend/optimizer.rs:454-538 | rewriting the operands and slots of any instruction, consistently with where values are, gives the same effect at the renamed places and the same stop or output |
| `Execution.WritesMapped` | src/backend/optimizer.rs:454-538 | a rewritten instruction writes exactly the renamed slots |
| `Execution.ControlSame` | src/backend/lir.rs:2378-2533 | control instructions read only what `read_slots` lists and change no slot |
| `Execution.SimulatesTransitive` | src/backend/optimizer.rs:68-95 | observing behaviour composes, so passes can be chained |
| `Blocks.BuildBlockGraph` | src/backend/lir.rs:1770-1875 | blocks cut the program exactly at its leaders, every instruction lies in its block, and there is an edge exactly where control may pass from the end of one block to the start of another, returns included |
| `Blocks.CollectLeaders` | src/backend/lir.rs:1775-1801 | the leaders are the first instruction, every target and whatever follows a control instruction, and nothing else |
| `Blocks.CallContinuations` | src/backend/lir.rs:1815-1825 | the blocks that begin just after a call, all of them and no others |
| `Blocks.BlockSuccessors` | src/backend/lir.rs:1826-1872 | sorted, without repetition, and exactly the blocks control may go to |
| `Blocks.SameBlockOf` | src/backend/lir.rs:1803-1813 | two instructions have the same block number exactly when no leader lies between them |
| `Blocks.LeavingBlock` | src/backend/lir.rs:1826-1872 | a block is left only from its last instruction, to the first one of a recorded successor; no target lies inside a block |
| `Blocks.RunFollowsGraph` | src/backend/lir.rs:1770-1875 | every step of every run, calls and returns included, stays in its block or follows a recorded edge |
| `SsaVerify.Lower` | src/backend/lir.rs:303-359 | for every in-range program the assembled SSA program passes the whole of `verify` if and only if the program has instructions; it holds exactly the blocks, phis (each once, with its inputs), instruction records and memory versions the names call for; its names are stable, its facts sound on every run, its packed objects always hold bytes, and its demand is below every closed demand and closed unless the sweeps reached their limit |
| `SsaVerify.Verify` | src/backend/lir.rs:361-506 | accepts exactly the programs whose blocks list every instruction once, whose edges are in range, whose phis name their own values, whose facts and demanded bits cover all values, whose uses name values of their slots, and whose memory versions, phis and accesses fit their objects |
| `SsaVerify.Coverage` | src/backend/lir.rs:366-417 | comparing the number, the first and the last covered index, without duplicates, decides whether the blocks list each instruction exactly once |
| `SsaVerify.IndicesInOrder` | src/backend/lir.rs:307-333 | block by block, the instruction indices count up from 0 without a gap |
| `SsaVerify.PackObjects` | src/backend/lir.rs:2002-2247 | whatever the lowered program marks as packed holds bytes for ever, on every run that starts with bytes |
| `MemorySsa.BuildMemorySsa` | src/backend/lir.rs:1178-1329 | the versions are the stable value names of the program whose slots are the objects, all their phis are listed once with their inputs, and there is an access for exactly the objects an instruction touches, with the versions before and after it |
| `MemorySsa.CollectAccesses` | src/backend/lir.rs:1301-1329 | every access has the version just before its instruction, and after it that same version for a read or the version the store defines |
| `MemorySsa.VerifyMemory` | src/backend/lir.rs:453-503 | accepts exactly the memory tables whose versions, phis and accesses name objects, blocks and versions of their own object |
| `MemorySsa.VersionsRightOnRuns` | src/backend/lir.rs:1178-1329 | on every run, before every instruction, a version defined by a store names the last store to its object, the entry version means there has been none, and the version of a phi means that nothing has been stored since its block was last entered, when it took over what the version left by the predecessor said |
| `DemandedBits.ComputeDemandedBits` | src/backend/lir.rs:870-979 | the demand is that of a number of sweeps and never more than any closed demand; it is closed itself, hence the least closed one, unless the sweeps reached their limit, and then the last one still found it open |
| `DemandedBits.SettledIffClosed` | src/backend/lir.rs:878-979 | a sweep adds nothing exactly when every phi passes its demand to its inputs and every instruction its own to what it reads |
| `DemandedBits.SweepsBelow` | src/backend/lir.rs:870-979 | however many sweeps there are, they demand no more than any closed demand |
| `DemandedBits.InstrGrows` | src/backend/lir.rs:900-1040 | more demand on the results of an instruction never means less on its operands |
| `DemandExact.BinopAgrees` | src/backend/lir.rs:981-1040 | for every operator: operands that agree in the bits the pass demands give results that agree in the demanded bits, traps included, if the demand is adequate |
| `DemandExact.KeepsIff` | src/backend/lir.rs:981-1040 | for slot operands, and for signed shifts by a constant, this holds if and only if the demand is adequate: the demanded bits of a sum, difference or product are the lowest ones, and a signed shift whose sign copies are demanded has its sign demanded |
| `DemandExact.NormalizeIff` | src/backend/lir.rs:929-939 | the demand on what is normalised is enough for the demanded bits of the result if and only if a demanded copy of the sign has the sign demanded too |
| `DemandExact.NarrowAgrees` | src/backend/x86_64/emit_impl.rs:3297-3375 | a 32-bit instruction computes the demanded bits, for all inputs, if they lie in the lower half and a right shift takes none of them from the upper half |
| `DemandExact.NarrowShiftIff` | src/backend/x86_64/emit_impl.rs:3297-3375 | a 32-bit right shift is right for all inputs if and only if no demanded bit comes from the upper half |
| `Narrowing.CheckNarrowing` | src/backend/x86_64/emit_impl.rs:880-905 | decides from the program and its demand whether the demand is adequate everywhere |
| `Narrowing.NarrowingPreservesRuns` | src/backend/x86_64/emit_impl.rs:880-905 | with a closed and adequate demand, the code with 32-bit instructions shows the same as the program after every number of steps, from every frame and for every outside world |
| `SsaVerify.LoweredNarrows` | src/backend/lir.rs:303-359 | so the 32-bit instructions of a lowered program are right if its demanded bits are closed and adequate |
| `NarrowingCounterexample.ShiftBreaksNarrowing` | src/backend/x86_64/emit_impl.rs:880-905 | a program that prints the lower half of a shifted slot prints 0 instead of the bit that the shift brings down, whatever number of sweeps its demand comes from |
| `CopyPropagation.AnalyseUses` | src/backend/optimizer.rs:303-340 | the vectors of the first loop are exact: write counts, sole writers, read positions and directly named slots |
| `CopyPropagation.SelectCopy` | src/backend/optimizer.rs:344-367 | a move is selected exactly when it is the only write of its target, all reads follow it in its block, the target is never named directly, and its source is settled |
| `CopyPropagation.PropagateSingleAssignmentCopies` | src/backend/optimizer.rs:292-395 | the result is the program rewritten through alias chains of any length, with exactly the candidate copies removed |
| `CopyPropagation.SourceEarlier` | src/backend/optimizer.rs:360-380 | a copy of a copy is resolved through a copy that comes earlier in the same block, so chains have no cycles |
| `CopyPropagation.AliasNotLater` | src/backend/optimizer.rs:368-380 | what a copy is replaced by is never the target of the same or a later copy |
| `Compaction.NewNumbers` | src/backend/optimizer.rs:397-430 | `old_to_new` counts the kept instructions before each position |
| `Compaction.RemoveRuntimeInstructions` | src/backend/optimizer.rs:397-430 | every kept instruction is at its new number with its target renumbered (targets past the end clamped) |
| `Compaction.NothingElse` | src/backend/optimizer.rs:397-430 | the compacted program holds nothing but kept instructions |
| `CopyCorrectness.AliasSettled` | src/backend/optimizer.rs:360-380 | the source a deleted copy was replaced by is not written after the copy |
| `CopyCorrectness.OperandsTrack` | src/backend/optimizer.rs:437-538 | reading through the replacements gives what the original operands gave |
| `CopyCorrectness.RemovedStep` | src/backend/optimizer.rs:397-430 | executing a deleted copy is a step the new program does not need |
| `CopyCorrectness.PropagationPreservesBehaviour` | src/backend/optimizer.rs:292-430 | copy propagation with compaction preserves the behaviour of every in-range program |
| `Superoptimizer.IdentityExact` | src/backend/optimizer.rs:738-767 | every algebraic identity gives the same value, for all 64-bit inputs |
| `Superoptimizer.PowerOfTwoExact` | src/backend/optimizer.rs:659-736 | multiplying, dividing or taking a remainder by a power of two equals the shift or mask put in its place, for all 64-bit inputs |
| `Superoptimizer.RewriteExact` | src/backend/optimizer.rs:830-965 | a candidate with a proof computes the same value, or traps, on every frame |
| `Superoptimizer.EnumeratedHasProof` | src/backend/optimizer.rs:593-641 | every enumerated candidate has a proof |
| `Superoptimizer.VerifyCandidate` | src/backend/optimizer.rs:787-828 | the corpus test never rejects a candidate that has a proof: the answer is exactly whether there is a proof |
| `Superoptimizer.FewSlots` | src/backend/optimizer.rs:787-828 | a rewrite with a proof touches at most two slots, so the corpus covers all of them |
| `Superoptimizer.PickBest` | src/backend/optimizer.rs:550-560 | the cheapest candidate by cost and then rank, if one is at most as expensive as the instruction |
| `Superoptimizer.RunVerifiedSuperoptimizer` | src/backend/optimizer.rs:540-566 | every instruction outside fusion-sensitive groups is replaced by its best candidate, everything else stays |
| `Superoptimizer.SuperoptimizerPreservesBehaviour` | src/backend/optimizer.rs:540-566 | the superoptimized program behaves like the original, whatever the cost tables are |
| `Scheduler.BuildDependences` | src/backend/optimizer.rs:1102-1118 | successor lists and predecessor counts are exactly those of the read/write, write/write and write/read dependences |
| `Scheduler.PickReady` | src/backend/optimizer.rs:1136-1146 | the ready node with the highest priority, the smallest on a tie |
| `Scheduler.Release` | src/backend/optimizer.rs:1147-1155 | emitting a node lowers exactly the counts of its successors and makes ready exactly those that reach zero |
| `Scheduler.AllEmitted` | src/backend/optimizer.rs:1136-1159 | the loop never stalls: with nothing ready, everything has been emitted |
| `Scheduler.ScheduleRegion` | src/backend/optimizer.rs:1101-1163 | the order emitted is a complete permutation that respects every dependence, and it is returned exactly when the cost model accepts it |
| `Scheduler.Exchange` | src/backend/optimizer.rs:1110-1116 | two independent instructions can be exchanged, whether or not either of them traps |
| `Scheduler.ScheduleSame` | src/backend/optimizer.rs:1101-1163 | executing a pure region in any order that respects the dependences gives the same slots, and traps exactly when the original order does |
| `ScheduleCorrectness.StraightLine` | src/backend/optimizer.rs:1016-1089 | running through scalar code is performing it instruction by instruction |
| `ScheduleCorrectness.SchedulePureRegions` | src/backend/optimizer.rs:1016-1089 | every maximal schedulable region without an affine triple is reordered by an accepted schedule, nothing else changes, and the behaviour is the same |
| `ScheduleCorrectness.MaximalNotInside` | src/backend/optimizer.rs:1016-1089 | the regions found do not overlap |
| `ScheduleCorrectness.RegionSameBehaviour` | src/backend/optimizer.rs:1016-1089 | exchanging one region for code that performs the same preserves the behaviour of the whole program, loops included |
| `Layout.Hottest` | src/backend/optimizer.rs:1544-1578 | the candidate with the highest edge or block count, ties broken as the comparison does |
| `Layout.FormHotTraces` | src/backend/optimizer.rs:1539-1581 | ends with a permutation of all blocks that starts at the entry and follows, at each block, the hottest unplaced successor |
| `Layout.PlaceBlocks` | src/backend/optimizer.rs:1360-1481 | each block is placed in order with its terminator inverted or repaired as needed, and every marker resolves to the new start of its block |
| `Layout.LayoutProfiledBlocks` | src/backend/optimizer.rs:1322-1484 | refuses exactly programs with calls, with fewer than two blocks or with a profile that does not match; an identity order changes nothing |
| `LayoutCorrectness.BranchTaken` | src/backend/optimizer.rs:1384-1436 | the laid-out branch jumps exactly when the original does, or, where inverted, exactly when it does not, and goes to the right block |
| `LayoutCorrectness.MarkerResolves` | src/backend/optimizer.rs:1503-1523 | a block marker becomes the start of that block, or the end of the program |
| `LayoutCorrectness.FallThroughsRight` | src/backend/optimizer.rs:1399-1453 | every block falls to where the original falls if and only if the last block stays last or ends in an unconditional transfer |
| `LayoutCorrectness.StepSimulated` | src/backend/optimizer.rs:1322-1484 | one step of the original is one or two steps of the laid-out program |
| `LayoutCorrectness.LayoutPreservesBehaviour` | src/backend/optimizer.rs:1322-1484 | the laid-out program behaves like the original whenever the last block is safe |
| `Counterexamples.MovedEndBreaksLayout` | src/backend/optimizer.rs:1364-1453 | a two-branch program whose last block falls off the end and is moved changes behaviour, so that condition is needed |
| `SsaBuild.InvertSuccessors` | src/backend/lir.rs:1877-1889 | the predecessors of a block are exactly the blocks that list it as a successor |
| `SsaBuild.NumberResults` | src/backend/lir.rs:510-538 | entry values first, then one value per written slot of each instruction, each listed once |
| `SsaBuild.MeetBlock` | src/backend/lir.rs:553-577 | each slot enters a block under the one name all candidates share, or under the phi of that block and slot; a new phi is made only for a slot without one |
| `SsaBuild.Pass` | src/backend/lir.rs:550-597 | if a pass changes nothing, the names are stable: every block has its merged names on entry and their successors on exit |
| `SsaBuild.BuildValueSsa` | src/backend/lir.rs:509-603 | all names are in range and of the right slot, and they are stable: on every program a pass that changes nothing comes before the iteration limit |
| `SsaConverge.FedDecides` | src/backend/lir.rs:553-577 | a visited block gets something else than the entry value for a slot exactly when some predecessor passes it something else |
| `SsaConverge.SettledMore` | src/backend/lir.rs:549-597 | in a pass that starts from names that are settled for some blocks and slots, more of them settle until all have |
| `SsaConverge.NextProgress` | src/backend/lir.rs:543-597 | every pass before the names are stable lowers a measure |
| `SsaConverge.StartProgress` | src/backend/lir.rs:543-549 | the measure starts at no more than twice the number of pairs of block and slot, plus two, which is below the iteration limit |
| `SsaNaming.ResultsHold` | src/backend/lir.rs:579-587 | after an instruction its results have their own names and everything else keeps its name |
| `SsaNaming.PhisHold` | src/backend/lir.rs:553-577 | on every edge, the names on entry hold what the names on exit of the predecessor held |
| `SsaNaming.NamesRightOnRuns` | src/backend/lir.rs:509-667 | for stable names, on every run, the value recorded for a slot denotes the content of that slot whenever an instruction is about to execute, through phis, loops, calls and returns |
| `KnownBitsFacts.FitsAdd` | src/backend/lir.rs:798-868 | the bound on the sum is sound: no carry reaches the bits claimed to be zero |
| `KnownBitsFacts.FitsBinop` | src/backend/lir.rs:798-868 | for every operator, whatever is computed fits what is known about it |
| `KnownBitsFacts.FitsNormalize` | src/backend/lir.rs:738-796 | the facts for integer normalisation are sound, signed and unsigned |
| `KnownBitsFacts.FitsMeet` | src/backend/lir.rs:718-736 | meeting facts at a phi keeps only what both inputs guarantee |
| `KnownBitsFacts.FitsMasks` | src/backend/lir.rs:103-125 | fitting bit by bit is `v & zero == 0` and `v & one == one` |
| `KnownBitsFacts.FitsBelow` | src/backend/lir.rs:119-125 | no value exceeds the complement of its known zeros |
| `KnownBitsSweep.RecordNames` | src/backend/lir.rs:634-661 | the name recorded for every read is the name just before its instruction |
| `KnownBitsSweep.ComputeKnownBits` | src/backend/lir.rs:669-716 | the facts are those of a number of sweeps that either reached the limit or settled, and they are sound on every run |
| `KnownBitsSweep.SweepsSound` | src/backend/lir.rs:669-716 | the facts are sound after any number of sweeps, settled or not |
| `KnownBitsSweep.KnownBitsOfSlots` | src/backend/lir.rs:669-716 | on every run, at every instruction, every slot has a 0 in each bit known to be zero and a 1 in each bit known to be one |
| `Dominators.ComputeDominators` | src/backend/lir.rs:2127-2156 | the fixpoint is exact: a block is in the set if and only if it lies on every path from the entry |
| `Dominators.FixpointDominates` | src/backend/lir.rs:2127-2156 | every member of a fixpoint set lies on every path |
| `BytePacking.InferMemoryObjects` | src/backend/lir.rs:2002-2107 | the objects are exactly the distinct slot groups of the index instructions, with the class and representation their uses call for |
| `BytePacking.CollectDefinitions` | src/backend/lir.rs:2158-2172 | for every slot its unique definition and that definition's facts, or that there is none or more than one |
| `BytePacking.RefineObject` | src/backend/lir.rs:2183-2246 | an object is packed exactly when it is a contiguous, non-conservative one all of whose writes are byte writes |
| `BytePackingCorrectness.OperandIsByte` | src/backend/lir.rs:2173-2218 | an operand taken for a byte, by its constant, its facts or its unique dominating definition, is below 256 whenever it is used |
| `BytePackingCorrectness.PackedStaysByte` | src/backend/lir.rs:2190-2245 | if all writes of an object are byte writes and its slots start below 256, they stay below 256 on every run |
| `BytePackingCorrectness.RefineMemoryRepresentations` | src/backend/lir.rs:2109-2247 | with the stable names and sound facts that the analyses always give, every object the pass newly packs holds bytes for ever, on every run that starts with bytes |
| `Liveness.ComputeLiveness` | src/backend/lir.rs:1575-1616 | the sets are a fixpoint and exact: a slot is in the set if and only if some path of edges reads it before writing it |
| `Liveness.ReadAheadInLive` | src/backend/lir.rs:1592-1616 | a slot that is read ahead is in every fixpoint |
| `Intervals.Interferes` | src/backend/lir.rs:283-300 | the two-pointer scan answers yes exactly when some position is in both intervals |
| `Intervals.MergeSegments` | src/backend/lir.rs:1707-1718 | merging leaves separated segments in order that cover exactly the same positions |
| `Intervals.ComputeLiveIntervals` | src/backend/lir.rs:1574-1734 | one interval for every slot that is ever live or touched, covering exactly the positions where it is |
| `RegAlloc.CheckCompatible` | src/backend/x86_64.rs:325-330 | an interval fits a register exactly when it overlaps nothing there, except at a copy that may be coalesced |
| `RegAlloc.PreferredRegister` | src/backend/x86_64.rs:305-315 | the register of the slot this one was copied from, otherwise that of the first slot copied from this one that has a register, otherwise none |
| `RegAlloc.ChooseRegister` | src/backend/x86_64.rs:305-330 | the preferred register if the interval fits there, otherwise the first that it fits; none only if it fits none |
| `RegAlloc.AssignRegisters` | src/backend/x86_64.rs:284-334 | intervals with the same register may share it, intervals that must stay on the stack get none, and an interval is spilled only if every register has one it must not share with |
| `RegAlloc.FindColor` | src/backend/x86_64.rs:371-385 | the first colour whose occupants never overlap the interval, or a new one |
| `RegAlloc.AssignSharedWords` | src/backend/x86_64.rs:358-388 | every spilled scalar gets a word, shared only with slots it never overlaps |
| `RegAlloc.FromLir` | src/backend/x86_64.rs:276-388 | every interval has a place; two slots share one only if they never overlap or meet at a coalesced copy; addressable slots share with nobody; spilling happens only when every register is blocked |
| `RegAllocCorrectness.SharedMeansCopy` | src/backend/x86_64.rs:531-569 | two slots live at one position in one place meet at the copy from one to the other, which ends the life of its source |
| `RegAllocCorrectness.WritesKeepApart` | src/backend/x86_64.rs:276-388 | what an instruction writes goes nowhere near what is live across it |
| `RegAllocCorrectness.StaysInPlace` | src/backend/x86_64.rs:276-388 | after each instruction everything live at the next one is still in its place |
| `RegAllocCorrectness.AllocationPreservesRuns` | src/backend/x86_64.rs:276-388 | with the live-in slots loaded, the program on places shows the same as the program on slots after every number of steps |
| `RegAllocCorrectness.AllocationPreservesBehaviour` | src/backend/x86_64.rs:276-388 | with nothing live into the entry block the two programs have the same behaviour, whatever the places hold at first |
| `RegAllocCorrectness.AllocateSlots` | src/backend/x86_64.rs:276-388 | the map computed from the intervals of the program satisfies all this, for any priorities |
| `Fusion.SlotReadBeforeWrite` | src/backend/x86_64.rs:1862-1892 | the search answers yes exactly when some path, not followed through returns, reads the slot before writing it |
| `Fusion.MatchU32Affine` | src/backend/x86_64.rs:1687-1757 | finds the multiply, add and mask group, with its trailing copy where nothing jumps to it, exactly when it is there |
| `Fusion.U32AffineFusionCandidate` | src/backend/x86_64.rs:1687-1757 | offers a fusion exactly when the group is there, its slots are apart and its temporaries are not read later |
| `Fusion.MatchAffineSelect` | src/backend/x86_64.rs:1578-1665 | finds the mask-select group, with its trailing mask, exactly when it is there |
| `Fusion.AffineSelectFusionCandidate` | src/backend/x86_64.rs:1578-1685 | offers a fusion exactly when the group is there and its temporaries are not read later |
| `FusionCorrectness.AffineNarrows` | src/backend/x86_64.rs:1687-1757 | the masked 64-bit multiply-add equals the 32-bit multiply-add, for all 64-bit inputs |
| `FusionCorrectness.U32Group` | src/backend/x86_64.rs:1687-1757 | apart from its temporaries, the fused group leaves every slot as the original group does |
| `FusionCorrectness.MaskSelects` | src/backend/x86_64.rs:1592-1685 | masking with all ones or nothing and flipping picks one of two constants |
| `FusionCorrectness.SelectExact` | src/backend/x86_64.rs:1578-1685 | the instructions compute the selected update on exactly the frames on which the mask survives; with a mask slot of its own it always does |
| `FusionCorrectness.SelectGroup` | src/backend/x86_64/emit_impl.rs:1317-1348 | where the mask survives, the fused selection leaves every slot but its temporaries as the group does |
| `FusionRuns.GroupEffect` | src/backend/x86_64.rs:1578-1757 | a fused group differs from the original only in slots that no path of control reads later |
| `FusionRuns.FusionPreservesBehaviour` | src/backend/x86_64.rs:1578-1757 | for every program, calls included, and every set of fused groups whose temporaries are dead along all edges of control, returns included, the fused code can be observed to do the same as the original |
| `FusionRuns.GroupFrames` | src/backend/x86_64.rs:1578-1757 | every offered group is straight code and leaves all but its temporaries as its fused form does |
| `FusionRuns.CallFreePlanOk` | src/backend/x86_64.rs:1862-1892 | in a program without calls the search of the backend is enough: the temporaries of every offered group are dead |
| `FusionRuns.CallFreeFusion` | src/backend/x86_64.rs:1578-1757 | so every set of offered groups keeps the behaviour of a program without calls |
| `FusionRuns.NeverInside` | src/backend/x86_64.rs:1578-1590 | when no two groups overlap and nothing jumps into one, control never stands inside a fused group |
| `Counterexamples.ReturnHidesLaterReads` | src/backend/x86_64.rs:1862-1892 | in a program with calls the search misses a read after a return, and the fused program prints 0 instead of 5 |
| `Counterexamples.SharedMaskBreaksSelection` | src/backend/x86_64.rs:1578-1685 | a group whose mask slot is also its coefficient slot is offered, and when the comparison is false the program prints one number and its fused form another |
| `CountedLoops.MatchShape` | src/backend/x86_64.rs:1283-1306 | finds the initializer, guard and latch around a backward jump, the only such loop there is |
| `CountedLoops.CheckLoop` | src/backend/x86_64.rs:1308-1379 | accepts exactly the loops without other jumps to the header, whose body only increments, whose slot is used only for control, and whose trip count does not wrap |
| `CountedLoops.CountedLoopEmissionPlan` | src/backend/x86_64.rs:1277-1389 | the arrays mark the initializers, suppressed controls and latches of exactly the loops that qualify |
| `CountedLoopCorrectness.GuardHolds` | src/backend/x86_64.rs:1374-1379 | while something is left to count the guard would let the loop go on |
| `CountedLoopCorrectness.GuardFails` | src/backend/x86_64.rs:1374-1379 | after the last iteration the guard would stop the loop: the trip count is the ceiling of the distance over the step |
| `CountedLoopCorrectness.NoWrap` | src/backend/x86_64.rs:1374-1379 | the induction slot never wraps around |
| `CountedLoopCorrectness.IntoLoop` | src/backend/x86_64.rs:1308-1324 | a counted loop is entered only from its initializer or its latch |
| `CountedLoopCorrectness.LoopsApart` | src/backend/x86_64.rs:1283-1324 | two loops of the plan have no instruction in common |
| `CountedLoopCorrectness.StepCounted` | src/backend/x86_64/emit_impl.rs:403-444 | one step of the counting code is one step of the original, or two that show nothing in between |
| `CountedLoopCorrectness.CountingPreservesBehaviour` | src/backend/x86_64/emit_impl.rs:403-444 | counting down can be observed to do the same as the guarded loops, for any number of loops at once, if they have no side entries |
| `Counterexamples.SideEntryBreaksCounting` | src/backend/x86_64.rs:1308-1324 | a loop entered in the middle qualifies for the plan, and its counting form prints once too often |
| `ExactUnroll.FindUnrolled` | src/backend/x86_64.rs:1400-1472 | finds the loop with a latch whose guards and unit increments are equal in number and divide the distance, exactly when there is one |
| `ExactUnroll.ExactUnrollEmissionPlan` | src/backend/x86_64.rs:1395-1491 | suppresses exactly the guards after the first, and merges exactly the increments of loops whose body does not use the slot |
| `ExactUnrollCorrectness.GuardAlwaysSucceedsIff` | src/backend/x86_64.rs:1465-1475 | a guard after some number of increments succeeds from every aligned value below the limit if and only if not all increments come before it |
| `ExactUnrollCorrectness.PassOnRun` | src/backend/x86_64.rs:1416-1464 | on every run that enters at the header with the start value, as safe loops always are, the induction slot is an aligned value plus the increments of this pass |
| `ExactUnrollCorrectness.SuppressedGuardsSucceed` | src/backend/x86_64.rs:1473-1475 | every suppressed guard would have gone on to the next instruction, on every run that enters at the header with the start value |
| `ExactUnrollRuns.UnrollingPreservesRuns` | src/backend/x86_64/emit_impl.rs:451-476 | on every run that enters each loop at its header with its start value, the code without suppressed guards and with merged increments shows the same after every number of steps |
| `UnrollEntry.SafeUnrollingPreservesRuns` | src/backend/x86_64/emit_impl.rs:451-476 | if every loop of the plan is safe to unroll, the emitted code shows the same as the original after every number of steps, from every frame and for every outside world |
| `UnrollEntry.SafeIsEntered` | src/backend/x86_64.rs:1416-1426 | a loop nothing jumps into, whose header is entered only where the definition found by the search is the last write on every path of control, is entered with its start value on every run |
| `UnrollEntry.CheckUnroll` | src/backend/x86_64.rs:1395-1491 | decides from the program alone whether a loop of the plan is safe to unroll |
| `UnrollEntry.Collect` | src/backend/x86_64.rs:1416-1426 | the instructions that control can come to from some seeds without passing a stop, all of them and no others |
| `UnrollNecessity.SuppressedSucceedIff` | src/backend/x86_64.rs:1465-1475 | the suppressed guards of a loop succeed in every pass if and only if every guard comes before the last increment, or the start is the limit so that no pass begins |
| `UnrollNecessity.LateGuardFails` | src/backend/x86_64.rs:1465-1475 | if they do not, then from every entry with the start value the run stays in the loop until a suppressed guard stops it, or the program stops in the body |
| `UnrollNecessity.FailingLeaves` | src/backend/x86_64/emit_impl.rs:451-456 | a suppressed guard that stops the original takes it behind the loop |
| `UnrollCounterexamples.BypassBreaksUnrolling` | src/backend/x86_64.rs:1416-1426 | a loop whose definition control can jump over is in the plan, and the emitted code prints where the original leaves silently |
| `UnrollCounterexamples.LateGuardBreaksUnrolling` | src/backend/x86_64.rs:1465-1475 | a loop with a guard after all increments is in the plan, and the emitted code prints where the original leaves silently |
| `Allocator.SizeClassIndex` | src/backend/allocator.rs:300-309 | the bisection finds the first class that is large enough, or none if none is |
| `Allocator.AdvanceConserves` | src/backend/allocator.rs:172-280 | no step of any operation loses a block or makes one appear that the system has not just given |
| `Allocator.AdvanceCounts` | src/backend/allocator.rs:242-280 | every step keeps freed, flushed and pending blocks in balance |
| `AllocatorProtocol.RunsAreValid` | src/backend/allocator.rs:172-412 | under every interleaving of lock and atomic steps each block is in exactly one place and stays with its shard and class, each unlocked remote list is shorter than a batch, and the counters add up |
| `AllocatorProtocol.NeverHandedOutTwice` | src/backend/allocator.rs:172-236 | a block handed to a client is with no client at that moment |
| `AllocatorProtocol.QuiescentCounts` | src/backend/allocator.rs:343-381 | when all threads are done, remote frees equal flushed blocks plus blocks still pending, and each pending list is shorter than a batch |
| `AllocatorProtocol.DropFreesOnce` | src/backend/allocator.rs:384-412 | when all threads are done, what the drop loop gives back is every block the system ever gave, exactly once and with the class it was allocated for, except those a client still holds |
| `AllocatorProtocol.Drop` | src/backend/allocator.rs:384-412 | shard by shard and class by class every block of every list is given back as often as it is listed, with the class of its cell, and the lists are left empty |
| `AllocatorProtocol.DropCell` | src/backend/allocator.rs:384-412 | the hot block, the local list and the remote list of one cell |
| `AllocatorProtocol.ListsHoldOnce` | src/backend/allocator.rs:343-412 | when all threads are done each block is in the lists exactly once, unless a client holds it |
| `Features.ExpandFeatures` | src/package.rs:491-551 | the least set closed under the feature table, or nothing exactly when a feature that must be selected is not well defined |
| `Features.ActiveDependencies` | src/package.rs:453-489 | a dependency is active exactly when it is not optional or some selected feature enables it, and it gets its own features and those forwarded to it |
| `Features.ActiveGrows` | src/package.rs:453-489 | more features never switch a dependency off or forward less |
| `Resolver.EnsureVersion` | src/package.rs:435-451 | fails exactly on a second version of a name, and otherwise adds only that name |
| `Resolver.RemainingShrinks` | src/package.rs:280-293 | every request that changes something leaves less to ask for, so the loop ends |
| `Resolver.HeadNeeded` | src/package.rs:337-354 | every request in the queue is one that every solution has to meet |
| `Resolver.HeadSelected` | src/package.rs:329-354 | whatever is selected for a package, every solution selects |
| `Resolver.Visit` | src/package.rs:295-355 | one turn of the loop keeps everything known of the queue, the graph, the versions and the checksums, and reports only an error every solution confirms |
| `Resolver.ResolveFrom` | src/package.rs:230-417 | on success the least solution with exactly its active edges, one version of every package, and every package under its own name with the checksum that every active dependency asks for; on failure an error that every solution confirms: a real cycle, two needed versions, two checksums asked for one package, a needed package cached under another name, a needed package whose checksum is not the one asked for, or no solution at all |
| `Resolver.ResolveManifest` | src/package.rs:198-427 | the same for the root manifest given, under its name and version, from the features asked of it; on failure an error that every solution confirms, or a feature asked of the root that is not well defined in any closed selection |
| `HashTable.PosOfGroup` | bench/hash_join.rs:61-98 | advancing group by group and lane by lane follows one probe sequence through the region of the key |
| `HashTable.PosCovers` | bench/hash_join.rs:61-98 | the probe sequence visits every slot of the region |
| `HashTable.CountKeys` | bench/hash_join.rs:67-98 | a region of distinct keys is full exactly when it holds as many keys as it has slots |
| `HashTable.Table.constructor` | bench/hash_join.rs:167-173 | an empty table |
| `HashTable.Table.Probe` | bench/hash_join.rs:124-165 | lookup in the map of what has been inserted |
| `HashTable.Table.Insert` | bench/hash_join.rs:51-122 | insertion into a bounded map: the value is stored unless the key is new and its partition (or the whole table) already holds as many keys as slots |
| `HashTable.Table.RoomLeft` | bench/hash_join.rs:67-98 | a new key finds no slot exactly when as many rivals as slots are there |
| `HashTable.Table.LookAgain` | bench/hash_join.rs:100-122 | the loop after the groups finds no slot to write to, so it changes nothing |
| `HashJoin.BloomAdd` | bench/hash_join.rs:26-36 | exactly the four bits of the hash are added |
| `HashJoin.BloomMaybe` | bench/hash_join.rs:37-49 | yes exactly when all four bits of the hash are set |
| `HashJoin.AddedIsFound` | bench/hash_join.rs:26-49 | an added hash is found, and every hash found before still is |
| `HashJoin.Build` | bench/hash_join.rs:179-193 | the table holds what inserting the rows in order into a bounded map gives, and the filter passes every key of the table |
| `HashJoin.Collect` | bench/hash_join.rs:204-213 | emptying a full buffer into the sum keeps the XOR of everything collected |
| `HashJoin.Join` | bench/hash_join.rs:195-225 | the result is the XOR of the values of all matching probes; the filter hides none |
| `Text.JoinThenSplit` | src/backend/profile.rs:40-45 | splitting rendered lines gives the lines back |
| `Text.FourWords` | src/backend/profile.rs:45-46 | splitting a rendered record gives its words back |
| `Text.PrintThenParse` | src/backend/profile.rs:189-198 | every 64-bit number survives printing and parsing |
| `Profile.Parse` | src/backend/profile.rs:36-100 | reads line by line and reports the first error; every edge of what it returns leads to a block and every name is a word |
| `Profile.SortedIdsUnique` | src/backend/profile.rs:112-118 | there is one sorted vector of a set, so rendering does not depend on map order |
| `ProfileText.RoundTrip` | src/backend/profile.rs:36-129 | parsing the rendered text gives the profile back if and only if its names are words, filed under themselves, and every edge leads to a block |
| `ProfileText.TextRoundTrip` | src/backend/profile.rs:36-129 | for every accepted text t, parse(render(parse(t))) is parse(t) |
| `ProfileStore.CompileProfile.Render` | src/backend/profile.rs:102-129 | functions, blocks and edges in increasing order, one record a line |
| `ProfileStore.CompileProfile.MergeInstrumentationRaw` | src/backend/profile.rs:131-186 | fails with the first check that fails and changes nothing then; otherwise counts come from the record by position, the topology stays, and each edge gets the smaller count of its two ends |
| `ProfileStore.MergeKeepsGood` | src/backend/profile.rs:131-186 | a merged profile still survives the round trip through its text |
| `ProfileStore.EdgesBounded` | src/backend/profile.rs:168-185 | no edge runs more often than the block it leaves or the block it enters |
| `ProfileStore.RecordAccepted` | src/backend/profile.rs:141-166 | a record with as many counters as blocks is accepted and every counter is read back |

## Left out

- Loop descriptors and call-site records.
- DemandedBits.ComputeDemandedBits: that the sweeps settle before their limit is not claimed; whether they did is one of the results. The demand of a `Foreign` instruction on its operands is the general case, all bits.
- Narrowing.NarrowingPreservesRuns: all operations with a narrow demand are narrowed at once, without the fusions that take some of them first; the condition is exact for single operations; that a program breaking it goes wrong on some run is claimed only of the program in `NarrowingCounterexample`, because it depends on the data.
- `remap_profile`, report counters, cost tables, critical-path and pressure figures: they decide only between results that are all proved right, so they are arbitrary inputs here.
- `ThreadSpawn`, whose target is neither a block start nor renumbered, and `RadixSortFixedInt`.
- The declaration of `RuntimeInstr` is not part of this model; instructions with outside effects (heap, files, channels, clocks, floating point) are one `Foreign` instruction with up to three operands and one result.
- Checked and unchecked index instructions differ in a flag: out of bounds, the first exits with 255 and the second counts as a trap.
- Return with an empty stack stops with `Underflow`; what the machine would do there is not modelled.
- The byte encoding of instructions, executable file formats, the operating-system interfaces and all emit routines beyond the shape of the fused and counted code.
- Pipeline.OptimizeRuntimeProgram: programs are assumed shorter than 2^63 instructions, because block markers use the upper half of the index range; why the last block must be safe to move is shown in `Counterexamples`.
- RegAlloc.FromLir: spill weights, rematerialisation, copy hints and forced stack slots are arbitrary inputs, the sort by weight is any permutation, and that spilled scalars take the first free colour is stated for `FindColor` only.
- RegAllocCorrectness.AllocationPreservesRuns: a packed byte is a place of its own that holds a whole value; that a byte is enough is `BytePackingCorrectness.PackedStaysByte`. Promoted allocations and frame offsets are not modelled.
- FusionRuns.FusionPreservesBehaviour: temporaries dead along all edges of control, returns included, and selections with a mask slot of their own; `Counterexamples` shows both are needed.
- UnrollEntry.SafeUnrollingPreservesRuns: that a loop entered wrongly on some path of control goes wrong on some run is not claimed, because whether a run takes a path depends on the data; `UnrollCounterexamples` has one that does.
- ExactUnrollRuns.UnrollingPreservesRuns: stated for runs that enter each loop with its start value; `UnrollEntry.SafeIsEntered` gives that from the program alone.
- Intervals.ComputeLiveIntervals: spill weights, rematerialised constants and the final sort are left out; allocation takes its priorities as inputs.
- CountedLoopCorrectness.CountingPreservesBehaviour: loops without jumps into their middle; `Counterexamples` shows why.
- The other fusions (compare-and-jump, indexed loads, bit tests, bit sets), which look at the fall-through path only or match more of the same kind.
- AllocatorProtocol.RunsAreValid: steps are sequentially consistent, each use of the local mutex is one step, and configuration normalisation and allocations too large for any class are not modelled.
- Resolver.ResolveFrom: reading manifests and lock files, computing checksums, the format test on a checksum and the order of error messages; identifiers are compared as pairs instead of display strings. That the resolved graph is acyclic is not claimed, because chains are looked at only for requests that change something.
- HashJoin.Join: the random number generator and the fixed sizes of the benchmark run; the join works for any rows and probes. Shifts and masks by constants are written as division and remainder.
- Profile.Parse: `lines`, `trim` and `split_whitespace` are one definition of lines and words, with Unicode white space; messages are an error kind with its line number.
- Lexer, parser, type checker, ELF, Mach-O and COFF writers, SHA-256, command line and test tools.
