# Verified model of wcc

wcc is an optimizing C compiler. This project models the middle of its back end, from the control flow graph to machine
registers, and five self-contained parts around it, and proves that they do what they are for. Run `dafny verify dfyconfig.toml`
to check it.

The main line follows a function through the passes of `ssa.c` and `regalloc.c`:

- **Dominators** (`Dominance`, `Numbering`, `DomTree`, `Idom`): both computations, the shrinking sets and the iteration in reverse
  postorder, end and are exact, and agree with each other.
- **Into SSA form and out of it** (`Frontiers`, `Globals`, `PhiPlacement`, `SsaNames`, `Rename*`, `SsaFacts`, `Components`,
  `LiveRanges`, `LeavingSsa`, `SsaRoundTrip`, `SsaPipeline`): phi functions at iterated dominance frontiers, renaming, live
  ranges as connected components, and the theorem that the program on live ranges runs in step with the original one.
- **Liveness and interference** (`LocalUse`, `Liveness`, `Widths`, `Separation`, `EdgeMatrix`, `Interference`, `EdgeMeaning`,
  `InterferenceSound`): the version-cached iteration computes path-based liveness; the graph holds exactly the edges that the
  instructions call for; a placement of vregs that respects the graph keeps the meaning of the program, but for one kind of move
  (`LostSource`, `LostRuns`).
- **Coalescing** (`Pending`, `CoalesceCode`, `Coalescing`) and **register allocation** (`Coloring`, `Regalloc`): both are
  instances of that one theorem. Merging live ranges is a placement of vregs onto vregs; allocation is a placement onto
  registers and stack slots, on a machine whose calls, divisions and shifts destroy registers. `BackEnd` puts the passes together:
  SSA form with the first coalescing, and, on the other side of instruction selection, the second coalescing with allocation.

`Ir` gives the small intermediate representation that these passes share, and its step semantics. An instruction has an operation,
a destination, two sources and an immediate part. What operations compute and which way branches go is left open: it may depend on
the whole history of the run, so memory, calls and input are covered. An IR_MOVE between operands of one type is a copy; one between
different types computes like any other operation. "Same meaning" always says that for every number of steps the
two programs are at the same instruction of the same block with the same history of operations and operand values. Allocation may
put the result of a zero or sign extension where its source is, when both are used later; there the histories are the same at the
widths at which instructions read their operands (`Widths`).

The other parts:

- **Hash table** (`Tables`, `LongMaps`, `LongSets`): open addressing with tombstones as a finite map, and sets on top of it.
- **Tree tiling** (`Tilings`, `TileGraph`, `Tiler`): the dynamic program over instruction rules finds a cheapest tiling whenever
  there is a tiling.
- **Macro expansion** (`Macros`): object-like macros with hide sets, for any table.
- **Constant expressions** (`Precedence`, `ConstExpr`): precedence climbing against the stratified grammar of C89, section 3.3.
- **Calls and the stack** (`ParamTypes`, `ParamAllocation`, `ParamAllocator`, `CallPushes`, `CallAlignment`, `FrameSlots`): where
  parameters go (System V AMD64 ABI, section 3.2.3), stack alignment at calls (section 3.2.2), and the layout of the frame.

Code that works step by step is modelled by methods with loops, arrays and objects; each is tied to a predicate or function, about
which the lemmas then speak. `Basics.AnyOf` picks elements in an unspecified order where the order in the source comes from
hashing or sorting.

What the models show about the code, beyond the properties themselves:

- `ConstExpr.ComparisonOfShift`: the right operand of a relational operator is parsed at the level of `>>`, whose token number is
  above that of `<<` (constexpr.c:446-449, wcc.h:399-490). So `1 < 2 << 3` is parsed as `(1 < 2) << 3`.
  `ConstExpr.ParsesStandardTree` says exactly which expressions are affected.
- `Tables.StoredTwice`: `longmap_put` stops at the first tombstone (longmap.c:71) and may store a present key a second time.
  `Tables.StoreRepresents` says exactly when.
- `LostSource.ConversionLosesSource`: the exception for copies also covers X_MOVC, which changes the value (ssa.c:1471-1477). With
  the graph made for register allocation (wcc.c:132), a float that is converted to a double by `cvtss2sd` (instrrules.c:543) and
  used again afterwards has no edge to the double. Both may get one register, and then the later use reads the double.
  `InterferenceSound.GraphSufficesExactly` says exactly which programs are affected, in terms of instructions and liveness, and
  `LostRuns.LossShows` that the loss can be observed wherever a run comes to such a conversion and then to a use of its source. The
  edges for instruction selection exclude it (`InterferenceSound.SelectionGuards`). X_MOVZ and X_MOVS leave what a narrow source is
  read for, and are not affected either.
- `InterferenceSound.TypedSeparates`: the exception covers an IR_MOVE between operands of different types as well, which may change
  the value, and there the edges for instruction selection do not help (ssa.c:1483). What keeps such a pair from being merged is
  only the comparison of types when candidates are made (ssa.c:1645), because live ranges are merged with others of their type only.
- `Coalescing.NothingMerged`: with the edges for instruction selection every X_MOV interferes with its own source, so a round merges
  nothing in code without an IR_MOVE between operands of one type. This is so for the coalescing after instruction selection
  (wcc.c:122): it leaves the code as it is.
- `ParamAllocator.PaddedStructIsNotCovered`: the count of eightbytes comes from the sum of the scalar sizes (functions.c:1623,
  1641). `ParamAllocator.CoveredExactly` says exactly when all scalars are covered.
- `ParamAllocator.UnionHasEmptyEightByte`: for the same reason `union { long; double; }` gets a second eightbyte, for which an SSE
  register is used up although nothing lies in it; section 3.2.3 of the ABI passes the union in one integer register.
  `ParamAllocator.FilledExactly` says exactly when every eightbyte that gets a location holds a scalar.
- `ParamAllocation.EnumInStructGoesToStack`: an enum parameter is treated like an int (functions.c:1504), but an enum inside a struct
  counts as something that fits no register (functions.c:1627-1634, types.c:424), so the struct goes to the stack; section 3.2.3 of
  the ABI passes it in an integer register. `ParamAllocation.TakenApartExactly` says exactly which structs go there.
- `Precedence.MissingOperandFails`: an operator without a right operand makes parsing fail, although a shorter expression comes
  before it.
- `FrameSlots.AlignedExactly`: the frame layout inserts no padding, so slots are aligned exactly if every size is a multiple of its
  alignment. `FrameSlots.MixedUseMisfits` shows a slot where taking the larger size and the larger alignment separately breaks this.

## Model

| member | source | states |
|---|---|---|
| `Dominance.SolutionIsExact` | ssa.c:278-339 | a solution of the equations that has lost no true dominator holds d at n if and only if every path from a block without predecessors to n passes through d |
| `Dominance.Sweep` | ssa.c:300-334 | a sweep keeps every true dominator; if it changes anything the sets shrink in total, if not, all equations hold |
| `Dominance.MakeBlockDominance` | ssa.c:278-339 | the iteration ends, with d in the set of n if and only if every path from a block without predecessors to n passes through d |
| `Dominance.EntryPathsAreDominance` | ssa.c:278-339 | where all blocks are reachable from block 0 these sets are the dominators |
| `Numbering.MakeRpo` | ssa.c:357-371 | the search from a block finds what can be reached through unvisited blocks, numbers it with consecutive numbers downwards, and gives each found block a smaller number than any block it was the first to lead to |
| `Numbering.NumberBlocks` | ssa.c:390-395 | reachable blocks have distinct numbers, and each but block 0 has a reachable predecessor with a smaller number; unreachable blocks keep 0 |
| `Numbering.OrderBlocks` | ssa.c:397-398 | the position given by the number of a reachable block holds that block |
| `DomTree.Intersect` | ssa.c:373-383 | the walk ends at the nearest common ancestor of the two blocks |
| `Idom.NewIdom` | ssa.c:413-426 | -1 if no predecessor has a link yet, else the nearest common ancestor of the predecessors that have one |
| `Idom.LinkStep` | ssa.c:409-431 | giving a block its new link keeps the links a tree that has lost no dominator, with links to smaller numbers, and a changed link moves up |
| `Idom.Sweep` | ssa.c:407-432 | a sweep keeps these invariants; it lowers a measure if it changes anything, and otherwise every link is what the predecessors call for |
| `Idom.StableIsExact` | ssa.c:406-433 | when nothing changes any more, every ancestor in the tree lies on every path from block 0 |
| `Idom.LinkIsClosest` | ssa.c:386-447 | the link of a block strictly dominates it and is dominated by every other strict dominator |
| `Idom.ClosestIsUnique` | ssa.c:386-447 | no other block is a closest strict dominator |
| `Idom.MakeImmediateDominators` | ssa.c:386-447 | the iteration ends with the closest strict dominator of every reachable block but 0, and -1 for block 0 and unreachable blocks |
| `Idom.DominanceSetIsChain` | ssa.c:278-447 | on a graph reachable throughout, the dominator set of a block is the chain of immediate dominators up from it |
| `Frontiers.EnterFrontiers` | ssa.c:475-482 | the walk up from a predecessor p of i adds i to the set of exactly the blocks that dominate p and do not strictly dominate i |
| `Frontiers.FewPredecessors` | ssa.c:466-474 | a block with fewer than two predecessors is in no frontier, so skipping it loses nothing |
| `Frontiers.MakeDominanceFrontiers` | ssa.c:455-484 | d is in the set of a reachable block b if and only if b dominates a reachable predecessor of d and does not strictly dominate d |
| `Globals.MakeGlobalsAndVarBlocks` | ssa.c:715-748 | the globals are the vregs used in some block before being defined there; the blocks listed for a vreg are those that define it |
| `PhiPlacement.PlaceVariable` | ssa.c:789-808 | the work list runs empty with the least set that holds the frontiers of the defining blocks and of its own members |
| `PhiPlacement.PlacePhiFunctions` | ssa.c:783-811 | the same for all globals at once, and nothing is placed for other vregs |
| `PhiPlacement.LeastClosedIsIterated` | ssa.c:783-811 | that least set is what chains of one or more frontier steps from the defining blocks reach |
| `SsaPipeline.InsertPhis` | ssa.c:813-856 | every block gets one phi function for each vreg placed there, in ascending order |
| `SsaPipeline.IntoSsa` | ssa.c:278-862 | from the program to phi functions: wherever a global is defined, every block of the frontier has a phi function for it |
| `RenameState.TopIsName` | ssa.c:898-906 | the top of the stack of a vreg is the definition that reaches this point down the dominator tree, or else its bottom entry; the stack is empty exactly if there is neither |
| `Rename.Renamer.NewSubscript` | ssa.c:877-882 | issues the next subscript, never issued before for the vreg, and pushes it |
| `Rename.Renamer.SafeStackTop` | ssa.c:903-906 | the top of the stack, after pushing a new entry if the stack was empty |
| `Rename.Renamer.RenamePhiDsts` | ssa.c:923-934 | after the phi destinations the stacks hold the definitions of the block so far on top of what they held |
| `Rename.Renamer.RenameOperations` | ssa.c:936-959 | every use carries the name that reaches it, every definition a subscript of its own |
| `Rename.Renamer.FillEdge` | ssa.c:964-984 | an edge fills the first empty slot of each phi function of its target with the name at the end of the block; earlier slots stay right |
| `Rename.Renamer.PopBlock` | ssa.c:995-1004 | exactly the definitions of the block are popped |
| `Rename.Renamer.RenameVars` | ssa.c:909-1005 | renames the subtree of a block, leaves other blocks alone, and returns every stack as it was, except that an empty one may hold one bottom entry |
| `Rename.RenamePhiFunctionVariables` | ssa.c:1008-1029 | every reachable block ends up named, with all its edges filled in |
| `SsaFacts.DefinitionsAreDistinct` | ssa.c:877-959 | no two definitions in reachable blocks have the same vreg and subscript, nor that of the bottom entry |
| `SsaFacts.UseNamesDominator` | ssa.c:936-959 | a use names a definition in a dominating block, or the one bottom subscript of its vreg |
| `SsaFacts.SlotsPerEdge` | ssa.c:961-985 | the slots of the phi functions of a block were filled once for each edge from a reachable block, in one common order |
| `Components.MergeIsComponent` | ssa.c:1099-1123 | merging the classes of the members of one more phi function gives the components of one more phi function |
| `LiveRanges.MergePhi` | ssa.c:1099-1123 | adding elements to a shared set object and repointing its members in place merges exactly the classes of the phi function's members |
| `LiveRanges.NumberSets` | ssa.c:1125-1174 | names get the same number exactly if they share a set object; the numbers are those right above the reserved ones, without gaps |
| `LiveRanges.MakeLiveRanges` | ssa.c:1062-1174 | two SSA names get the same live range if and only if a chain of phi functions joins them; the numbers have no gaps |
| `LeavingSsa.CollectNames` | ssa.c:1073-1081 | the keys hold every name of an instruction or phi function |
| `SsaRoundTrip.KeyInjective` | ssa.c:1042-1044 | different names have different keys |
| `LeavingSsa.RangesGroup` | ssa.c:1083-1174 | every operand has a live range, phi functions join theirs, and the names of one live range share one vreg |
| `LeavingSsa.AssignRanges` | ssa.c:1178-1227 | the new program has the live range of each name in its place, and no phi functions |
| `SsaRoundTrip.NoDefsOnTheWay` | ssa.c:774-811 | where a block has no phi function for a global, the same definition reaches it from each predecessor |
| `SsaRoundTrip.PhiMatches` | ssa.c:961-985 | where it has one, the phi's live range is that of the name at the end of each predecessor |
| `SsaRoundTrip.RunsAlign` | ssa.c:774-1227 | the program and the program on live ranges are in step for ever, with the value of each defined vreg in the live range last written for it |
| `SsaRoundTrip.UsesReadLastDefinition` | ssa.c:774-1227 | on every run each use of a live range reads what the last definition of the original vreg wrote, in the live range that definition wrote |
| `SsaPipeline.RoundTrip` | ssa.c:278-1227 | all passes one after the other, from any program whose block 0 has no predecessor: the result means the same |
| `Liveness.MakeUevarAndVarkill` | ssa.c:535-569 | for each block, the vregs used before being defined, and those defined |
| `Liveness.LiveIsLeastSolution` | ssa.c:584-684 | the sets given by paths solve the equations, and every solution contains them |
| `Liveness.Visit` | ssa.c:626-683 | visiting a block keeps the cache honest; an unchanged set satisfies its equation, a changed one has grown |
| `Liveness.MakeLiveout` | ssa.c:584-684 | the iteration ends, with v in the set of b if and only if some path from the end of b reaches a use of v before any definition of it |
| `Separation.LiveAtMeans` | ssa.c:1384-1514 | the set kept while going backwards through a block holds what is used before being defined from there on, or live at the end and not defined |
| `Separation.LiveoutCovers` | ssa.c:1384-1385 | the liveout sets leave out nothing that is live at the start of a successor |
| `Separation.RunsMatch` | ssa.c:1369-1517 | a placement that keeps every result apart from what is live after it, and live vregs out of destroyed registers, keeps the two runs in step: instructions read the same, at the width at which they read, and every live vreg has what counts of its value in its place |
| `Separation.RunsMatchWhole` | ssa.c:1369-1517 | if no extending move gets its result where a source used later is, the histories are the same and every live vreg has its whole value in its place |
| `EdgeMatrix.AddEdge` | wcc.h:1155-1159 | the triangular matrix holds one edge more, in both directions |
| `EdgeMatrix.Lookup` | wcc.h:1153-1153 | finds an edge whichever way round it was added |
| `Interference.MakeInterferenceGraph` | ssa.c:1369-1520 | the matrix holds exactly the edges that the instructions call for: forced registers, call clobbers, division and shift registers, results against what is live, instruction selection |
| `EdgeMeaning.EdgesMean` | ssa.c:1322-1489 | there is an edge between two vregs if and only if some instruction keeps them apart: it defines one while the other is live after it and not what it moves, forces one into a register, works in or destroys a register of a list given there operation by operation, subtracts one from the other, or has both as operands for instruction selection |
| `EdgeMeaning.PreviousInList` | ssa.c:1438-1441 | the instruction before a shift is the one before it in the list of all instructions, also in the block before |
| `EdgeMeaning.DivisionDraws` | ssa.c:1426-1431 | what is live after a division and its operands have edges to rax and rdx |
| `EdgeMeaning.ShiftDraws` | ssa.c:1433-1435 | what is live after an IR_BSHL, in the graph with clobbers, or an IR_BSHR, and its operands have edges to rcx |
| `EdgeMeaning.MachineShiftDraws` | ssa.c:1437-1442 | so have those of an X_SHR after a move, and both ends of the move |
| `EdgeMeaning.LongDoubleComparisonDraws` | ssa.c:1444-1445 | what is live after a comparison of long doubles and its operands have edges to rdx |
| `EdgeMeaning.CallDraws` | ssa.c:1395-1424 | what is live after a call has edges to rdi, rsi, rcx, r8, r9 and xmm2 to xmm13, and to rax, rdx, xmm0 and xmm1 unless the call returns something there; the function called has one to rax |
| `EdgeMeaning.VregsInterfere` | ssa.c:1437-1489 | for vregs that are not reserved for registers only definitions, subtractions and instruction selection do that |
| `InterferenceSound.InstructionSeparates` | ssa.c:1464-1481 | a placement that gives the ends of every edge different places, and different classes too, keeps the result of every instruction apart from what is live after it, except that of a conversion (X_MOVC, or IR_MOVE between types) whose source is live after it and kept apart from the result by no instruction |
| `InterferenceSound.GraphSufficesExactly` | ssa.c:1464-1489 | all such placements keep all results apart, if and only if there is no such conversion |
| `InterferenceSound.SelectionGuards` | ssa.c:1483-1489 | with the edges for instruction selection no X_MOVC is such a conversion |
| `InterferenceSound.TypedSeparates` | ssa.c:1464-1489 | with them, a placement that also gives different types different places keeps all results apart |
| `LostSource.ConversionLosesSource` | ssa.c:1471-1477 | code that the pass accepts with the graph for allocation, in which a converted float is used again: no edge is drawn, the allocation that colouring makes of it in every order of the vregs puts float and double in one register, and the history of the allocated code differs |
| `LostRuns.LossShows` | ssa.c:1471-1477 | for every program and every such conversion: if a run comes to it and then, before its source is written again, to an operation that reads the source, some placement that respects the graph and the classes changes the history for some meaning of the operations |
| `Coloring.GraphNodeDegree` | regalloc.c:93-100 | counts the neighbours of a vreg, reading the triangular matrix on both sides of the diagonal |
| `Coloring.NeighborColors` | regalloc.c:110-121 | exactly the registers that neighbours of the vreg are in, leaving out the reserved vregs of other classes |
| `Coloring.AtMostDegree` | regalloc.c:93-121 | these are no more than the neighbours |
| `Coloring.FirstFree` | regalloc.c:150-160 | with fewer colours taken than the class has registers, the search finds the first free one: the panic after it is never reached |
| `Coloring.ColorVreg` | regalloc.c:102-165 | the vreg is spilled if and only if its neighbours are in at least as many registers as the class has; otherwise it gets its preferred register if no neighbour has that, and else the lowest one of the class that none has; interfering vregs stay apart, and spills get the next stack index |
| `Coloring.AllocateRegistersTopDown` | regalloc.c:168-274 | the outcome for every vreg of the class, given the order: those with as many neighbours as registers come first, then those with a preference, then the rest, each decided by the registers its neighbours had then; other vregs are untouched |
| `Coloring.SpilledExactly` | regalloc.c:168-274 | a vreg is spilled if and only if it has as many neighbours as the class has registers and as many registers are those of reserved neighbours and of such neighbours coloured before it |
| `Regalloc.InitPregMap` | regalloc.c:313-328 | the map takes register numbers to rax, rbx, rcx, rdx, rsi, rdi, r8, r9, r12 to r15 and xmm0 to xmm13, by their machine numbers |
| `Regalloc.MachineRegisterInjective` | regalloc.c:313-328 | no two registers are mapped to one |
| `Regalloc.NeverGivenOut` | regalloc.c:313-328 | no vreg is ever in rbp, rsp, r10, r11, xmm14 or xmm15 |
| `Regalloc.ScratchExactly` | ssa.c:1395-1446 | the registers that divisions, shifts and comparisons destroy on the machine are exactly those that the graph with clobbers excludes for them |
| `Regalloc.CallScratchExactly` | ssa.c:1395-1424 | the registers that calls destroy on the machine are exactly those drawn for them and those never given out |
| `Regalloc.AllocateRegisters` | regalloc.c:408-432 | both classes: distinct spill slots, interfering vregs never in one register; every spilled vreg has neighbours in as many registers as its class has, so one with fewer neighbours is in a register; and both classes are coloured in the order above |
| `Regalloc.ForcedOrSpilled` | ssa.c:1322-1339 | a vreg that interferes with every register of its class but one is in that one or spilled |
| `Regalloc.AssignVregLocations` | regalloc.c:333-389 | gives up exactly if an operand for which a register is demanded has a stack index; otherwise the code is the old one on locations, where an X_MOV becomes a NOP exactly if both its operands are in one register |
| `Regalloc.ForcedInRegister` | ssa.c:1322-1350 | when it does not give up, an operand that must be in a register is in that machine register |
| `Regalloc.AllocationPreservesMeaning` | regalloc.c:102-432 | with the graph made with clobbers, the allocated program runs in step with the program on vregs and has what counts of every live vreg in its location at every step, whatever is left in rax and rdx by divisions, in rcx by shifts, in rdx by comparisons of long doubles, in the registers that a called function need not preserve, and in rax before a call through a register |
| `Regalloc.AllocateProgram` | regalloc.c:408-432 | from liveout sets to allocated code: whenever the rewriting does not give up, the result is the program on its locations, and a plan to which the theorem applies if no conversion loses its source |
| `Pending.CopyInterferenceGraphEdges` | ssa.c:1535-1539 | the destination gets every edge of the source, the matrix being changed row by row while it is read |
| `Pending.MergeCovers` | ssa.c:1698-1722 | after a merge the edges between representatives still cover all edges between members, and interfering live ranges keep different representatives |
| `Pending.UpdatePending` | ssa.c:1700-1722 | the map renames to the destination whatever it renamed to the source |
| `Pending.CoalesceCandidates` | ssa.c:1685-1724 | in any order of the candidates: the map stays idempotent and within classes and types, renames to results of candidates, interfering live ranges stay apart, live ranges that need a register are not merged, and every candidate is merged in the end unless its representatives interfere or need a register |
| `CoalesceCode.CheckIsDistinct` | ssa.c:1564-1578 | the check after renaming passes exactly if the operands were distinct before |
| `CoalesceCode.MigrateLiveouts` | ssa.c:1581-1594 | moving one live range after the other in place gives every set its image under the renaming |
| `CoalesceCode.MigratedCovers` | ssa.c:1581-1594 | liveout sets that left out nothing live still do not after renaming |
| `Coalescing.FindCandidates` | ssa.c:1643-1660 | candidates are exactly the results and sources of the moves in question; marked are exactly the operands that must be in a register |
| `Coalescing.ChosenExhausts` | ssa.c:1685-1724 | if nothing was merged, the ends of every IR_MOVE of the class between operands of one type interfere, or one of them must be in some register |
| `Coalescing.OtherStaysExhausted` | ssa.c:1626-1731 | a round of one class leaves that true of the other class |
| `Coalescing.RoundKeepsGood` | ssa.c:1626-1731 | a round ends with what the next one needs: numbers in range, liveout sets that cover the code |
| `Coalescing.RoundMerges` | ssa.c:1626-1731 | the program after a round runs in step with the one before, also where an IR_MOVE converts |
| `Coalescing.ChangeRemovesMove` | ssa.c:1626-1731 | a round that merges anything removes a move |
| `Coalescing.NothingMerged` | ssa.c:1643-1655 | in code without an IR_MOVE between operands of one type nothing is merged and the code stays the same |
| `Coalescing.Round` | ssa.c:1626-1731 | one round, with all of this; it fails exactly if the check is made and some operands were not distinct; if it changes nothing, there was nothing to merge |
| `Coalescing.MergesCompose` | ssa.c:1626-1731 | rounds compose: the last program runs in step with the first |
| `Coalescing.CoalesceLiveRangesForPreg` | ssa.c:1621-1739 | rounds for one class end, preserve meaning, and leave no IR_MOVE of the class that could be merged: in the code before the last round, which is the result unless the pass began with moves of a live range onto itself, the ends of each interfere or need a register |
| `Coalescing.CoalesceLiveRanges` | ssa.c:1741-1764 | liveness, then both classes: the result runs in step with the program, its liveout sets still cover it, and no IR_MOVE of either class is left that could be merged; with self moves in the program and no other integer moves to merge, that is said of the integer moves before these are dropped |
| `BackEnd.RemoveVregSelfMoves` | instrsel.c:1420-1430 | machine moves of a vreg onto itself become NOPs, and nothing else changes |
| `BackEnd.SsaThenCoalescing` | wcc.c:90-105 | SSA form, live ranges and the first coalescing together: the result runs in step with the program that went in, if what is live into block 0 starts with its value |
| `BackEnd.CoalesceAndAllocate` | wcc.c:122-135 | the second coalescing, the removal of self moves, and allocation: no move is left that could be merged, the vregs are coloured in order, and whenever it does not give up, its results are related in the way that the next theorem asks for |
| `BackEnd.CompiledFollows` | wcc.c:122-135 | the code on machine locations runs in step with the code on vregs before coalescing, with the same history at the widths of the operands, if nothing is live into block 0 and no conversion loses its source |
| `Tables.NotFound` | longmap.c:88-100 | a probe that meets an empty slot shows that the key is not stored |
| `Tables.StoreProbed` | longmap.c:63-86 | storing keeps every stored key reachable by probing from its home |
| `Tables.StoreRepresents` | longmap.c:63-86 | storing at the first free slot or at the key updates the map if no tombstone lies before the key, and stores the key twice if one does |
| `Tables.BuryRepresents` | longmap.c:102-117 | turning the slot of a key into a tombstone removes the key from the map |
| `Tables.StoredTwice` | longmap.c:63-117 | a concrete table in which putting a stored key again stores it twice, and deleting it brings the old value back |
| `LongMaps.PutBehindTombstone` | longmap.c:63-117 | put 0, put 16, delete 0 leads from a new table to that table, and putting 16 again stores it twice |
| `LongMaps.LongMap.constructor` | longmap.c:178-186 | a new table stands for the empty map |
| `LongMaps.LongMap.Get` | longmap.c:88-100 | ends, with the value of the first slot in probe order that holds the key, or null if none does |
| `LongMaps.FirstIsValue` | longmap.c:88-100 | in a table that stands for a map, that is the value in the map |
| `LongMaps.LongMap.Delete` | longmap.c:102-117 | removes the key from the map; the counts stay right and an empty slot remains |
| `LongMaps.LongMap.MaybeRehash` | longmap.c:24-61 | the new arrays stand for the same map, without tombstones and below the load factor; it acts exactly from 666 used or buried slots in 1000 on, and doubles the table exactly if 333 in 1000 hold elements |
| `LongMaps.LongMap.Put` | longmap.c:63-86 | updates the map at the key, unless no rehash was due and a tombstone lay before the key; the counts stay right and an empty slot remains |
| `LongMaps.LongMap.Clear` | longmap.c:130-134 | the table stands for the empty map |
| `LongMaps.MapIterator.Next` | longmap.c:152-166 | goes to the next slot in use; fails exactly if the size has changed since the start |
| `LongMaps.Keys` | longmap.c:121-128 | lists exactly the stored keys, each once if each is stored once |
| `LongMaps.AllKeysVisited` | longmap.c:152-176 | iteration over a table that stands for a map visits exactly the keys of the map, each once |
| `LongSets.Union` | longset.c:66-76 | a new set with the elements of both |
| `LongSets.Intersection` | longset.c:78-87 | a new set with the common elements |
| `LongSets.Eq` | longset.c:33-47 | comparing the counts and looking up one set's elements in the other decides equality |
| `Precedence.ParseExactly` | constexpr.c:289-470 | for any table of second levels the parser returns a tree and a rest exactly if the tokens are those of the tree, the tree is an expression at the level, and the rest starts with no operator that it could take |
| `Precedence.ParseIsLongest` | constexpr.c:289-470 | what it returns is the longest expression at the level that the tokens start with |
| `Precedence.MissingOperandFails` | constexpr.c:402-470 | an expression followed by an operator that it or the level takes, with no operand after it, is not parsed at all: in 1 + ) the 1 is not returned |
| `Precedence.DerivationIsUnique` | constexpr.c:289-470 | there is at most one such tree |
| `ConstExpr.StandardIsStratified` | constexpr.c:402-470 | with the levels of the standard the trees built are those of the stratified grammar of C89, section 3.3 |
| `ConstExpr.StandardTreeIsUnique` | constexpr.c:289-470 | a token list has at most one tree in that grammar |
| `ConstExpr.ParsesStandardTree` | constexpr.c:402-470 | the code parses a whole expression to its tree in that grammar if and only if no relational operator has a chain of shifts with a left shift as its right operand |
| `ConstExpr.ComparisonOfShift` | constexpr.c:446-449 | 1 < 2 << 3 is parsed as (1 < 2) << 3 |
| `ConstExpr.SubtractsFromLeft` | constexpr.c:402-470 | x1 - x2 - ... - xn is parsed and computed from left to right: 7 - 2 - 1 is 4 |
| `ConstExpr.Parser.ParseOperandAt` | constexpr.c:289-348 | a prefix operator takes its operand at the level of postfix operators; parentheses and numbers are consumed exactly |
| `ConstExpr.Parser.ParseConstantExpression` | constexpr.c:289-470 | advancing through the tokens and combining values in the loop yields the value of the tree and stops where it ends |
| `Tilings.CostBound` | instrsel.c:751-787 | a tiling costs at most the dearest rule for each node, which is what keeps costs below the constant that stands for no match |
| `Tiler.Tiler.TileLeaf` | instrsel.c:824-863 | succeeds exactly if a rule can make the value; the choices and labels are all such rules with their least costs |
| `Tiler.Tiler.TileNullary` | instrsel.c:791-820 | takes the first rule of an operation without operands |
| `Tiler.Tiler.AccumulatedCost` | instrsel.c:751-787 | the cost of a choice is the least cost of a tiling with that rule at the root |
| `Tiler.Tiler.TileOperation` | instrsel.c:876-991 | succeeds exactly if the operation can be tiled; every rule that some tiling has at the root becomes a choice, with its least cost |
| `Tiler.Tiler.LeastExpensiveChoice` | instrsel.c:1005-1037 | finds the first of the cheapest choices that make what the parent needs, if there is one |
| `Tiler.ChoiceIsOptimal` | instrsel.c:1005-1037 | a choice that is cheapest among the choices makes a tiling that is cheapest among all tilings |
| `Tiler.Tiler.MakeIntermediateRepresentation` | instrsel.c:1235-1263 | after tiling a matching choice is always found, and the rules emitted make up a cheapest tiling: each needs of its operands what their rules make |
| `Tiler.TileTree` | instrsel.c:995-1037 | tiling succeeds if and only if the tree can be tiled, and emits a tiling of the least total cost |
| `Macros.SubstHides` | cpp.c:1257-1356 | every token that substitution produces hides at least the given names |
| `Macros.ReplacementIsGroups` | cpp.c:1228-1356 | the replacement of a macro name is its body, each token with what is pasted on it appended and then an ordinary word, and every token hides exactly what the name hid and the name itself |
| `Macros.GroupsWithoutPastes` | cpp.c:1228-1356 | without paste operators the replacement is the body itself, with these hide sets |
| `Macros.NameInBodyExpands` | cpp.c:1055-1108 | a macro name expands to what the groups of its body expand to one after the other, and a group that names a macro not yet hidden is replaced by the groups of that body in turn |
| `Macros.ChainExpands` | cpp.c:1055-1108 | where a stands for b and b for c, a becomes c |
| `Macros.ReplacementIsLighter` | cpp.c:1055-1108 | a replacement weighs less than the name, summing (M+1)^(unhidden names) over tokens with M the longest body: expansion ends for every table |
| `Macros.NothingLeftToExpand` | cpp.c:1055-1155 | a token naming a macro that comes out is in its own hide set |
| `Macros.ExpandTwice` | cpp.c:1055-1155 | expanding again changes nothing |
| `Macros.ExpandConcat` | cpp.c:1055-1155 | what follows does not influence the expansion of what comes before |
| `Macros.AnyOrderGivesExpansion` | cpp.c:1055-1155 | replacing expandable names in any order until none is left gives the same tokens |
| `Macros.SubstTokens` | cpp.c:1257-1356 | appending to the output list or gluing on its last token in place, and copying it with the hide set in the end, computes the substitution that `Macros.ReplacementIsGroups` speaks of |
| `Macros.SubstSpells` | cpp.c:1228-1356 | pasting moves no character: the result spells the output so far and then the body without its paste operators |
| `Macros.SubstLength` | cpp.c:1228-1356 | and has one token more for each token of the body that is not pasted onto another |
| `Macros.ExpandTokens` | cpp.c:1055-1108 | copying leading tokens in a loop and recursing on the replacement computes the expansion that the lemmas above speak of |
| `ParamTypes.ScalarsInside` | functions.c:1553-1576 | the scalars of a struct, with structs and arrays in it, lie inside it |
| `ParamTypes.AlignedOn16` | types.c:464-504 | a type is aligned on 16 bytes exactly if a long double is in it |
| `ParamAllocation.EachTypePlaced` | functions.c:1497-1550 | integers, enums, pointers and arrays go to the next of 6 integer registers, floats and doubles to the next of 8 SSE registers, and to 8 bytes of stack when none is left; long doubles go to 16 bytes on a 16-byte boundary, and structs not taken apart to the next multiple of 8, or of 16 if a long double is inside |
| `ParamAllocation.AddParam` | functions.c:1588-1701 | one more parameter shares no register with the others, and lies after them on the stack, on its boundary |
| `ParamAllocation.EightBytesInRegisters` | functions.c:1656-1675 | if registers of both classes suffice, the eightbytes get consecutive ones by class and nothing on the stack; if not, some eightbyte is on the stack |
| `ParamAllocation.StructsAreWhole` | functions.c:1588-1701 | a struct of several eightbytes is wholly in registers or wholly on the stack, and in the second case the register counters are those from before it |
| `ParamAllocation.TakenApartExactly` | functions.c:1588-1701 | a struct goes to the stack as a whole exactly if it has more than 16 bytes, something in the eightbytes counted fits no register, something is not on a multiple of its size, or it has several eightbytes for which the registers left do not suffice |
| `ParamAllocation.EightBytePlaced` | functions.c:1656-1675 | otherwise, of several eightbytes each gets the next integer register if a char, short, int, long or pointer lies in it, and the next SSE register if not |
| `ParamAllocation.SingleEightBytePlaced` | functions.c:1656-1686 | a single eightbyte goes where an int would if one of these lies in it, and where a float would if not |
| `ParamAllocation.EnumInStructGoesToStack` | functions.c:1627-1634 | struct { enum E e; } goes to the stack where all registers are free |
| `ParamAllocator.Allocator.AddTypeToAllocation` | functions.c:1497-1550 | gives a type the register or the place on the stack said above |
| `ParamAllocator.Allocator.AddFunctionParam` | functions.c:1588-1701 | trying registers, and restoring the counters when they do not suffice, has the effect of deciding beforehand |
| `ParamAllocator.Allocator.Finalize` | functions.c:1704-1712 | the size is the offset rounded up to the next multiple of the largest alignment on the stack, and 0 if nothing is there |
| `ParamAllocator.AllocateParams` | functions.c:1472-1712 | for any list of parameters: each is where its type goes; no two locations share a register, those on the stack are apart, aligned and within the size, and the size is a multiple of every alignment used |
| `ParamAllocator.CoveredExactly` | functions.c:1623-1641 | all scalars of a struct lie in eightbytes that get a location, if and only if their sizes add up to more than 8 or none starts at 8 or later |
| `ParamAllocator.FilledExactly` | functions.c:1623-1641 | every eightbyte that gets a location holds a scalar, if and only if the sizes add up to at most 16, some scalar starts below 8, and, if the sizes exceed 8, some scalar starts at 8 or later |
| `ParamAllocator.EmptyTakesSseRegister` | functions.c:1656-1675 | an eightbyte that holds none takes an SSE register whenever the struct goes in registers |
| `ParamAllocator.PaddedStructIsNotCovered` | functions.c:1623-1641 | struct { char; int; char; } has a scalar outside of the eightbytes |
| `ParamAllocator.UnionHasEmptyEightByte` | functions.c:1623-1641 | union { long; double; } gets a second eightbyte that holds nothing |
| `CallPushes.StartBalances` | codegen.c:545-579 | whatever alignment pushes are made or cancel, the count that the end of the call will see is what will have been pushed since, and the total is even, with one push made if it was odd and none if not |
| `CallPushes.CallIsAligned` | codegen.c:545-606 | for calls nested to any depth the push count is even at every call, and the end of a call restores its value from before the start |
| `CallAlignment.AddFinalInstructions` | codegen.c:533-606 | the counter is the depth of the stack under the adjustments emitted; the stack is aligned at every call if and only if the counter is even there |
| `CallAlignment.AllocatorSuppliesCounts` | parser.c:2350-2367 | the push count from the allocator is what the arguments push with the gaps between them, and one more exactly if the end is padded by 8 bytes or more |
| `CallAlignment.PreparedMatches` | parser.c:2341-2367 | calls whose counts come from the allocator are as the walk over the instructions needs them |
| `CallAlignment.EmitCall` | codegen.c:533-606 | so every call emitted finds the stack aligned on 16 bytes, and leaves it as deep as it was |
| `FrameSlots.ProcessStackOffsets` | codegen.c:114-144 | every slot gets the largest size and the largest alignment that an operand uses it with |
| `FrameSlots.LayOut` | codegen.c:146-162 | all used slots are placed, by falling alignment, each ending where the sizes up to it add up to |
| `FrameSlots.SlotsAreApart` | codegen.c:146-162 | no two slots share a byte |
| `FrameSlots.AlignedExactly` | codegen.c:146-162 | every slot is aligned if and only if every size is a multiple of its alignment |
| `FrameSlots.MakeStackOffsets` | codegen.c:130-190 | operands of different slots share no byte, all lie within the frame, and the frame is the least whole number of pushes that reaches to the end of the last slot |
| `FrameSlots.MixedUseMisfits` | codegen.c:114-125 | a slot used as 12 bytes on a 4-byte boundary and as 8 bytes on an 8-byte boundary misfits |

## Left out

Deliberately weaker than the source, or narrower:

- SsaPipeline.RoundTrip: block 0 must have no predecessors, which holds because every function begins with an unlabelled NOP (parser.c:3577-3578).
- LiveRanges.MakeLiveRanges: the order in which live ranges are numbered (sorting and hashing, ssa.c:1135-1155) is left open; the truncation of keys to `int` (ssa.c:1084) is not modelled.
- Liveness.MakeLiveout: the source keeps as many versions for each block as there are blocks (ssa.c:603). A block with at least as many out-edges, which takes parallel edges, makes it write the terminator, or even a version, past that array; the model has room for every edge. The terminator is never read and is not modelled; sets are mathematical sets. Where a longset could hold an element twice (`Tables.StoredTwice`), the set of live vregs while going backwards would be too large, never too small.
- Interference.MakeInterferenceGraph: a call's function value stands in `src1`, and which registers hold its result is given with the instruction. Reserved vregs take their class from their register, not from the table in `make_vreg_preg_classes`, which calls two SSE registers integer; reserved vregs do not occur in code.
- InterferenceSound.InstructionSeparates: register classes and types belong to vregs; in the source they belong to each occurrence of a vreg.
- Coloring.AllocateRegistersTopDown: the order of the vregs within their priority sets is given. Spill costs and the sorting by them (ssa.c:1779-1833, regalloc.c:233-254) are not modelled.
- Regalloc.AllocateRegisters: the setting without reserved registers (`live_range_reserved_pregs_offset` 0) is not modelled; preferred registers must lie in the class of their vreg.
- Regalloc.AssignVregLocations: a register move onto itself becomes a NOP without operands; in the source the operands stay in the instruction, where nothing uses them. The map to machine registers is part of the location, not a pass of its own.
- Regalloc.AllocateProgram: parameters on the stack must have indexes of their own from 2 up.
- Regalloc.AllocationPreservesMeaning: operations are open, so it is assumed of them that they read their operands at the width of the type, and that X_MOVZ and X_MOVS keep the low bits that their source is read for (`Separation.Suits`). Before a call through a register RAX is destroyed for the read of the function value; afterwards it is destroyed unless the call returns in it. For an X_MOVC that loses its source nothing is said.
- BackEnd.CompiledFollows: what counts of a vreg is assumed to be given by its type. Instruction selection (wcc.c:116-121) lies between `BackEnd.SsaThenCoalescing` and this theorem, and is modelled only for single trees (`Tiler`); so the two are not joined. Spill code and what comes after it are not modelled.
- LostRuns.LossShows: a source that is only copied afterwards, and read as a copy, is not covered; the placement joins the two vregs and is not one that the allocator chose.
- Coalescing.CoalesceLiveRanges: candidates are merged in any order, not by spill cost; without live range coalescing enabled the pass only builds the graph, which is not modelled apart. IR_MOVE has no second source.
- LongMaps.LongMap.Put: says nothing about the map of a table that already holds a key twice, beyond the counts and the slot found first.
- LongMaps.Keys: the keys are not truncated to `int` as in longmap.c:121-128.
- LongSets.Eq: for sets in which no element is stored twice.
- Tiler.TileTree: node numbers are distinct; operations without operands occur only as whole trees; the total cost stays below the constant 100000000 that stands for no match. Building and merging instruction trees (instrsel.c:186-496) and merging constants are not modelled.
- Macros.ExpandTokens: object-like macros only. Function-like macros, stringizing, and names with a renderer such as `__LINE__` are not modelled; line numbers and white space flags of tokens are not either.
- ConstExpr.Parser.ParseConstantExpression: integers, prefix operators, parentheses and binary operators, with what the operators compute left open. The ternary operator, casts, sizeof, addresses and floating point are not modelled.
- ParamAllocator.Allocator.AddFunctionParam: a union whose scalars add up to more than 64 bytes while its size is at most 16 makes the source index past its arrays of eight; the model has no such bound.
- CallAlignment.AddFinalInstructions: function prologue and epilogue enter only as the number of words already on the stack. The float argument rule that emits two arguments for one push (instrrules.c:1667) is not modelled.
- FrameSlots.MakeStackOffsets: the reassignment of the overflow area of variable arguments (codegen.c:174-179) is not modelled; slots that no operand uses get offset 0, where the source leaves them unset.

Not modelled at all:

- The parser, type checker, lexer and linker, file and process handling, debug output and DWARF.
- The rule table itself (instrrules.c): rules are an arbitrary finite table.
- Rendering of x86 instructions, and what they compute bit by bit; floating point.
- Aliasing of operand values between instructions, except that the start and the end of a call share one value.
- Making the control flow graph, and arithmetic optimizations on the intermediate representation (ssa.c:26-277); spill code (instrsel.c:1432-1590), spill costs and preferences.
