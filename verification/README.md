# NineToothed: model and proofs

NineToothed lowers the body of a kernel to structured SSA, verifies it, rewrites it, and runs it on a
checked interpreter over arranged tensor views; a debugger slices the recorded trace. This project
models those parts of it in Dafny and proves what they are for. `dafny verify dfyconfig.toml` checks it.

Where the source computes with expressions the model is functions and lemmas; where it changes tables,
lists and buffers it is classes, methods and loops proved equal to those functions or to the property
the operation promises. Python objects that are compared by identity carry an explicit identity, Python's
floor division and remainder are written out, and 64-bit wrap-around is modelled where the source proves
its absence.

| part | modules | main results |
|---|---|---|
| names and the verifier | `Ssa`, `Verification`, `VerifierSteps`, `Scoping`, `Typing` | what is accepted, exactly; accepted programs are scoped, miss no name, and their regions deliver what is asked |
| lowering | `Frontend`, `FrontendBuilder`, `ScopedMeaning`, `Lowering`, `StaleNames`, `LoweringCorrect`, `ScopesMatter`, `LoweringInputs`, `KernelSignature` | what lowered code means, that it is what the statements mean, and exactly when not |
| the interpreter | `Interpreter`, `ValueMeaning`, `StoreMeaning`, `LoopRounds`, `Execution` | what operators, stores and loops do to elements; the object that runs a program computes the evaluator and records its trace |
| linalg decomposition | `Linalg`, `Decomposition`, `DecompositionPass`, `DecompositionValid`, `DecompositionKeeps`, `DecompositionExact`, `HardCodedInput`, `LaneReplay`, `SteadyRuns`, `ProgramReplay`, `TransposeReplay`, `TransposeExact`, `MaskedReplay`, `MaskedKernel`, `NormalForm`, `MatMulDomain`, `StandardDomain` | accepted programs stay accepted, and exactly when not; the pass reaches a normal form; replaying a rewritten program leaves what the program leaves; lane replay computes the product, over all programs, of the usual blocks in particular |
| layouts | `Layout`, `LayoutFibres`, `LayoutChain`, `LayoutReads`, `MatMulLayout` | what each operation reads; arrangement chains are bijections up to the copies that `expand` makes; the arrangement of a blocked product |
| traces | `Slicing`, `SlicingCorrect`, `SliceTheorem`, `BackwardSlice`, `TaggedRun`, `SliceStops`, `SliceExists`, `DistinctArguments`, `DistinctLoops`, `SliceMisses`, `LoopEntries`, `SliceReuse`, `Intervals`, `Dependencies`, `MemoryEdges`, `FullSlice` | links are the events that values came from; memory edges are exact; slices are least and closed |
| geometry | `Expressions`, `ExpressionMeaning`, `Bounds`, `BoundsTight`, `Geometry`, `AddressMaps`, `ProvenMaps` | interval analysis is sound, and exact where no symbol is read twice; the one-entry cache returns the address map, which holds what each lane evaluates to |
| storage | `Strides`, `Storage`, `StorageSpans` | the stride test, exactly; copying views is an alias isomorphism over tight spans |
| schedules and launches | `CooperativeReduction`, `TiledTranspose`, `LaunchCache`, `RepeatedCalls` | the generated reduction folds, the generated transpose transposes, cached launches fit their calls and repeated calls find them |

`Wrappers`, `Sorting` and `Arithmetic` hold shared helpers.

## What the code does not do

Each of these is a property that the code fails on some input. The model keeps the code as it is; the
named member gives the input, the exact condition, or both.

- A loop target that is bound outside its loop is not carried out of it. After the loop the name has its
  old value, which is right if and only if the loop did not run or that value is the last induction value
  (`ScopesMatter.BoundTargetExact`). If the body assigns the target, the lowered loop is its body repeated
  without the target being set, and is right if and only if the direct loop leaves the same
  (`ScopesMatter.CarriedTargetExact`, input `LoweringInputs.TargetInput`).
- The `else` of a `for` is dropped. The loop is right if and only if running the `else` after it succeeds and
  changes nothing (`ScopesMatter.LoopElseExact`, input `LoweringInputs.ElseInput`).
- A name bound only inside a loop or branch that is also a shape symbol reads as the symbol after it. A kernel
  that then reads it keeps its meaning if and only if the region left it unbound or equal to the symbol
  (`ScopesMatter.ShadowedSymbolExact`, input `LoweringInputs.ShadowInput`).
- The verifier counts the arguments of the entry block as defined and the interpreter never binds them:
  an accepted program that reads one misses a name (`Scoping.UnboundArgumentMissed`, input
  `Scoping.UnboundEntryMisses`).
- Decomposition drops the mask of a store. The replay of the rewritten program is right if and only if the
  output already holds the tile wherever the mask rejects a live lane (`ProgramReplay.MaskedProgramExact`, for
  transposes `MaskedReplay.MaskedTransposeExact`; input `MaskedKernel.MaskedInput`, an accepted kernel).
- The scalar code of a transpose reads the source array at swapped output coordinates, not through the source's
  arrangement. It is right if and only if every live lane finds the transposed element there
  (`TransposeExact.TransposeKeptExactly`).
- The names `%kk` and `%acc_iter` of the decomposed loop are hard-coded. An accepted program, clean but for
  them, stays accepted if and only if both are new wherever a product is stored
  (`DecompositionExact.DecompositionValidExactly`, input `HardCodedInput.InductionNamedHard`, a loop over `%kk`).
- The dictionary of block arguments that the slicer builds has one entry for each name, so two loops that
  bind the same name share it. If no result has the name and neither loop starts from a block argument, a use in
  any round, of a carried value or of the induction value, is linked right if and only if the entry is the loop's
  own, or neither loop has ended a round and both start from the same events (`LoopEntries.EntryExact`, input
  `SliceReuse.SharedArgumentsMiss` with `SliceReuse.SharedEntryIsWrong`). Kernels whose loops name their targets
  and what they carry apart are linked right (`DistinctLoops.DistinctLoopsLinkRight`).
- The geometry cache identifies a layout by its object identity, so a new layout at the address of a
  collected one can be answered with the old address map (`Geometry.StaleLayout`). The interpreter gives each
  cache to one tensor reference with a fixed layout, so the two calls are calls on the class itself.
- A launch guarded for two tensors and a scalar does not look at the number inside a zero-dimensional
  tensor that the kernel takes as a scalar: the cached launch is reused with the old number
  (`LaunchCache.BoundNumberGoesStale`, run `LaunchCache.StaleNumber`).
- The stride test is complete for up to two dimensions larger than one. From three on it accepts exactly the
  strides that some order clears one after the other (`Strides.GreedyExact`), which contiguous ones do, but not
  all strides without a collision (`Strides.ThreeDimensionsIncomplete`).
- A launch of two tensors and a scalar is stored under the ids and looked up by its key only while it is the last
  one used: after another launch the same call is prepared anew (`RepeatedCalls.StoredLaunchFound`, run
  `RepeatedCalls.ForgottenCall`).
- `unsqueeze` accepts a dimension outside `0..rank` and then hands on an index of the wrong length
  (`Layout.UnsqueezeExact`).
- `squeeze` with a negative dimension does nothing, and `_unravel_index` of a rank-0 shape yields one index;
  `Layout` follows the code in both.
- An augmented assignment to a parameter rebinds the name, while a plain assignment stores to the tensor;
  `Frontend` follows the code.

## Model

| member | source | states |
|---|---|---|
| Scoping.AcceptedProgramsAreScoped | src/ninetoothed/ir/ssa.py:92-229 | acceptance makes all result names of a program, nested ones included, distinct from each other and from the inputs, and no visible name is rebound |
| Scoping.OperationsScoped | src/ninetoothed/ir/ssa.py:136-229 | accepted operations use only visible names and add exactly their own, pairwise distinct, new result names to the definitions |
| Scoping.OperationsRun | src/ninetoothed/interpreter/runtime.py:639-696 | scoped operations fail only with run-time faults, never with a missing name or a wrong region arity; they keep visible bindings, and a final yield delivers one value for each operand |
| Scoping.AcceptedProgramsRun | src/ninetoothed/ir/ssa.py:92-370 | from any environment with the inputs, the symbols and those entry arguments that are used, an accepted program misses no name, keeps what it was given, defines every output, and each region it takes yields as many values as its operation has results, at any nesting |
| Scoping.UnboundArgumentMissed | src/ninetoothed/interpreter/runtime.py:564-599 | an accepted program that reaches an operation with an unbound entry argument fails with a missing name, so the condition of the theorem above cannot be dropped |
| Scoping.UnboundEntryMisses | src/ninetoothed/ir/ssa.py:92-155 | an accepted program with one entry argument that fails so from every environment without it |
| Verification.Verify | src/ninetoothed/ir/ssa.py:92-134 | the verifier that mutates one set of definitions gives the verdict and the error of `VerifyProgram` on every program |
| Verification.Verifier.Block | src/ninetoothed/ir/ssa.py:136-229 | a block leaves the shared definitions and returns the visible table that `VerifyBlock` computes, its own arguments removed from the definitions at the end |
| Verification.Verifier.Operation | src/ninetoothed/ir/ssa.py:157-225 | one operation: its references, results, contracts, yield and regions checked in the source's order, with the same first error |
| Verification.Verifier.Regions | src/ninetoothed/ir/ssa.py:215-222 | the regions of an operation see its surroundings only, but share the definitions |
| Typing.AcceptedExactly | src/ninetoothed/ir/ssa.py:92-370 | a program is accepted if and only if it is well-formed, said without the verifier: new names once each, operands and store indices in sight, loops, branches and memory operations of the right make, boolean masks, integer bounds, and at any nesting each yielded value of the kind, shape and known dtype of its result, in a loop also of its initial value and argument; outputs agree with what is in sight |
| Typing.TogetherExact | src/ninetoothed/ir/ssa.py:232-257 | the signatures of one slot agree by the code's fold if and only if every two of them have one kind and shape and equal dtypes where both are known |
| Typing.SignatureExact | src/ninetoothed/ir/ssa.py:202-213 | two signatures are compatible if and only if kinds and shapes are equal, and dtypes where both are known |
| Typing.SymbolsExact | src/ninetoothed/ir/ssa.py:106-114 | the symbols in sight from the start are those declared and those that an extent of an input or output mentions |
| FrontendBuilder.ApplicationBuilder.ExprTo | src/ninetoothed/frontend/python.py:827-955 | lowering an expression appends to the caller's list and advances the tables as `LowerExpr` says, errors included |
| FrontendBuilder.ApplicationBuilder.AssignTo | src/ninetoothed/frontend/python.py:503-567 | an assignment to a parameter stores, any other rebinds the name |
| FrontendBuilder.ApplicationBuilder.AugAssignTo | src/ninetoothed/frontend/python.py:583-657 | an augmented assignment reads, computes and rebinds |
| FrontendBuilder.ApplicationBuilder.ForTo | src/ninetoothed/frontend/python.py:659-719 | a loop carries the assigned names that are bound before it, in a region with its own table, and rebinds them to its results |
| FrontendBuilder.ApplicationBuilder.IfTo | src/ninetoothed/frontend/python.py:721-793 | a branch lowers both sides in copies of the table and rebinds the touched names to its results |
| FrontendBuilder.ApplicationBuilder.StatementsTo | src/ninetoothed/frontend/python.py:466-491 | a statement list stops at the first error with the tables as they are |
| FrontendBuilder.ApplicationBuilder.Kernel | src/ninetoothed/frontend/python.py:396-464 | the builder as a whole returns the program, or the error, of `LowerKernel` |
| KernelSignature.SignatureOfKernel | src/ninetoothed/frontend/python.py:443-464 | a lowered kernel takes its parameters in order; no output is listed twice, and by name the outputs are exactly what its code stores to, at any nesting, in the order of the first stores |
| Lowering.OpcodeComputes | src/ninetoothed/frontend/python.py:827-955 | the operation that an operator is lowered to computes what the operator means on values: arithmetic and comparison element by element, choice, product, transposition, reading an element or an extent |
| Lowering.BoundsMean | src/ninetoothed/frontend/python.py:659-670 | the three operands that `range(...)` is lowered to evaluate to the start, stop and step that one, two or three arguments mean, and fail where those do |
| Lowering.LoweredMeansScoped | src/ninetoothed/frontend/python.py:466-793 | every lowered and accepted body, without restriction: the SSA fails, or leaves the memory and the values of the bound names, exactly as running the statements with the lowering's own scopes |
| LoweringCorrect.LoweringPreservesMeaning | src/ninetoothed/frontend/python.py:466-793 | for every lowered and accepted body that reads no name where it may be stale and leaves none stale in scope (a name is stale after a region that bound its symbol, or after a loop over it, until it is bound again), and whose loops have no `else`: running the SSA gives the buffers and the values of bound names of running the statements directly, failures included |
| LoweringCorrect.PlainBodiesKeepMeaning | src/ninetoothed/frontend/python.py:466-793 | in particular every accepted body whose loop targets are new, whose loops have no `else` and whose regions bind no shape symbol |
| ScopesMatter.PreservedExactly | src/ninetoothed/frontend/python.py:466-793 | lowering preserves the meaning of an accepted body if and only if the direct run and the run with the lowering's scopes give the same answer |
| ScopesMatter.BoundTargetExact | src/ninetoothed/frontend/python.py:659-719 | a loop over a target bound outside: the answers agree if and only if it fails or makes no round, or the old value equals the last induction value |
| ScopesMatter.CarriedLoopRepeats | src/ninetoothed/frontend/python.py:672-712 | a lowered loop whose body assigns its bound target is that body repeated, the target never set: neither start nor step plays a part |
| ScopesMatter.CarriedTargetExact | src/ninetoothed/frontend/python.py:672-712 | such a loop agrees with the direct one if and only if its bounds do not evaluate or the direct loop leaves what the repeated body leaves, as it does when it makes no round |
| ScopesMatter.LoopElseExact | src/ninetoothed/frontend/python.py:659-719 | a loop with an `else`: the answers agree if and only if running the `else` after the loop succeeds and changes neither memory nor a name still bound |
| ScopesMatter.ShadowedSymbolExact | src/ninetoothed/frontend/python.py:854-863 | a kernel that ends by reading a shape symbol's name, after any regular statements that may bind it in a region: its meaning is preserved if and only if they fail, left it unbound, or bound it to the symbol's value |
| LoweringInputs.ElseInput | src/ninetoothed/frontend/python.py:659-719 | an accepted kernel with a loop `else` whose meaning lowering does not preserve |
| LoweringInputs.TargetInput | src/ninetoothed/frontend/python.py:659-719 | an accepted kernel with a loop over an outer, carried name whose meaning lowering does not preserve |
| LoweringInputs.ShadowInput | src/ninetoothed/frontend/python.py:721-793 | an accepted kernel that binds a symbol's name inside a branch, preserved only for one value of the symbol |
| LoweringInputs.RoundsMayDiffer | src/ninetoothed/frontend/python.py:672-712 | a loop over its own carried target whose first round differs from the repeated body's and whose result does not: agreement in each round is sufficient and not necessary |
| Execution.Execution.Block | src/ninetoothed/interpreter/runtime.py:639-696 | running a block in place gives the values, environment and memory of the evaluator, restores the iteration stack, and records exactly the events of the execution tree in order |
| Execution.Execution.Operation | src/ninetoothed/interpreter/runtime.py:853-967 | one operation in place: the evaluator's values and memory, inner events recorded before its own |
| Execution.Execution.Loop | src/ninetoothed/interpreter/runtime.py:869-897 | a loop pushes its induction value for each round, carries the yielded values, and restores the stack on every exit |
| Execution.Execution.Lanes | src/ninetoothed/interpreter/runtime.py:600-624 | the lane loop runs the block once for each live lane from a copy of the environment and records each under a new key |
| Execution.Execution.Programs | src/ninetoothed/interpreter/runtime.py:564-624 | the program loop threads one memory through all programs and lanes, and its events are the trace of the launches it made |
| Execution.ReplayMatMul | src/ninetoothed/interpreter/runtime.py:396-624 | a run of the object over an accepted matmul domain ends with the product of the two source arrays in the output, and its recorded events are a trace the slicer's theorems apply to |
| LoopRounds.RangeLengthExact | src/ninetoothed/interpreter/runtime.py:885 | for every nonzero step, round k is made if and only if start + k * step still lies before stop in the direction of the step |
| LoopRounds.RoundsCarryRange | src/ninetoothed/interpreter/runtime.py:885-897 | a loop that succeeds makes exactly the rounds of the range and round k has the induction value start + k * step |
| LoopRounds.ForRunsRange | src/ninetoothed/interpreter/runtime.py:869-897 | an SSA loop runs its region once for each element of the range, in order, and feeds what a round yields to the next |
| LoopRounds.DirectLoopRunsRange | src/ninetoothed/frontend/python.py:659-719 | the direct meaning of a `for` statement binds its target to the elements of the same range, in order |
| ValueMeaning.BinaryExact | src/ninetoothed/interpreter/expressions.py:10-30 | each binary operator on two numbers, with floor division and remainder fixed by the sign of the remainder |
| ValueMeaning.ElementwiseExact | src/ninetoothed/interpreter/runtime.py:1101-1148 | two values combine if and only if each extent agrees or is one, and each element is the operator applied to the elements that broadcasting puts there |
| ValueMeaning.WhereExact | src/ninetoothed/interpreter/runtime.py:1074-1075 | selection combines under the same condition and takes each element from the side that the condition's element says |
| ValueMeaning.TransposedExact | src/ninetoothed/interpreter/runtime.py:1080-1081 | a transpose has the element (j, i) at (i, j), and no others |
| StoreMeaning.ReadExact | src/ninetoothed/interpreter/memory.py:208-245 | a read gives each live lane the element it addresses and every other lane the filler |
| StoreMeaning.ExtractExact | src/ninetoothed/interpreter/runtime.py:969-982 | reading one element: of a tile or view by indices that count from the end where negative, of the source array by indices that must be inside, and a failure in all other cases |
| StoreMeaning.ExtentExact | src/ninetoothed/interpreter/runtime.py:990-998 | the first extent of a tile or view is its rows and the second its columns, also counted from the end |
| StoreMeaning.OffsetExact | src/ninetoothed/interpreter/runtime.py:1008-1040 | a coordinate is that of the current lane in the lane's space, and in the source's space all of them, or that of the current lane for a decomposed program |
| StoreMeaning.WholeStoreExact | src/ninetoothed/interpreter/runtime.py:932-967 | a store of a tile succeeds if and only if value and mask fit the view and every lane that writes is inside the array; each element then holds the value of the last lane that writes it or what it held, and no other array changes; decomposed, only the current lane writes |
| StoreMeaning.ElementStoreExact | src/ninetoothed/interpreter/runtime.py:936-951 | a store with indices puts its value into the element of that lane, counted from the end where negative, if the lane is live, unmasked and the last to write there, and changes nothing else although it writes the whole tile back |
| DecompositionPass.Decomposer.FreshValue | src/ninetoothed/compiler/passes.py:1548-1567 | the chosen name is the first unused one at or after the counter and is taken afterwards |
| DecompositionPass.Decomposer.Block | src/ninetoothed/compiler/passes.py:1118-1298 | the pass that grows a list and a shared set of names rewrites a block, and takes the names, as `DecomposeBlock` says |
| DecompositionPass.Decomposer.MatMulStore | src/ninetoothed/compiler/passes.py:1301-1459 | the scalar code of one store, its names drawn one after the other |
| DecompositionPass.Decompose | src/ninetoothed/compiler/passes.py:337-375 | the mutating pass computes `DecomposeProgram` |
| DecompositionKeeps.DecompositionKeepsValid | src/ninetoothed/compiler/passes.py:1118-1298 | an accepted program whose removed values are used by their stores only, whose K extent is visible, whose hard-coded names are free and of whose shape symbols none has the form of a temporary, is rewritten to an accepted program, and every name defined anew is a temporary absent from the original's names and symbols |
| DecompositionExact.DecompositionValidExactly | src/ninetoothed/compiler/passes.py:1118-1459 | with the other conditions, and no removed value of a hard-coded name, the rewritten program is accepted if and only if `%kk` and `%acc_iter` are new at every product store, at any nesting |
| HardCodedInput.InductionNamedHard | src/ninetoothed/compiler/passes.py:1323-1376 | a product stored inside a loop: accepted whatever the loop's induction value is called, and rewritten to an accepted program if and only if that is neither `%kk` nor `%acc_iter` |
| DecompositionKeeps.HardCodedNamesMustBeFree | src/ninetoothed/compiler/passes.py:1323-1376 | scalar matmul code is accepted only where `%kk` and `%acc_iter` are new |
| NormalForm.PassReachesNormalForm | src/ninetoothed/compiler/passes.py:1118-1298 | for every program: after the pass no block at any nesting holds a product or a transpose together with a store of it; exactly the programs of that form are left as they are, so a second pass changes nothing |
| LaneReplay.DecompositionPreservesMeaning | src/ninetoothed/compiler/passes.py:1301-1459 | replaying the scalar block once for each live output lane leaves the memory of the whole-tile product and store, for all extents of M, N and K, zero included |
| ProgramReplay.ProgramReplays | src/ninetoothed/compiler/passes.py:337-375 | a whole accepted, clean program with one product and its store, among any other code that stores nothing and leaves the output alone, nested loops and branches included: the rewritten program, run once for each live lane of the output, leaves exactly the memory of the one run of the program |
| ProgramReplay.MaskedProgramExact | src/ninetoothed/compiler/passes.py:1446-1456 | the same program with a masked store: replay and run leave the same memory if and only if the output already holds the product wherever the mask rejects a live lane |
| MaskedKernel.MaskedInput | src/ninetoothed/compiler/passes.py:1446-1456 | an accepted and clean kernel, a one-element product stored under a zero mask, whose rewriting writes what the kernel does not |
| SteadyRuns.OperationsSteady | src/ninetoothed/interpreter/runtime.py:600-696 | code that stores nothing and refers to other storage runs in any lane to the values it has in the run over whole tiles, whatever other lanes have stored to the output |
| TransposeReplay.TransposePreservesMeaning | src/ninetoothed/compiler/passes.py:1178-1240 | replaying the decomposed transpose over live lanes leaves the memory of the whole-tile transpose and store, for arrangements that mirror each other |
| TransposeExact.TransposeKeptExactly | src/ninetoothed/compiler/passes.py:1178-1240 | for any arrangements of source and output whose live output lanes address elements of their own: replay and whole tile agree if and only if the source array can be read at each live lane's swapped coordinates and holds the transposed element there |
| MaskedReplay.MaskedMatMulExact | src/ninetoothed/compiler/passes.py:1301-1459 | a masked store of a product: replay and whole tile agree if and only if the output already holds the product wherever the mask rejects a live lane |
| MaskedReplay.MaskedTransposeExact | src/ninetoothed/compiler/passes.py:1178-1240 | the same if-and-only-if for a masked store of a transpose |
| MatMulDomain.CheckBlock | src/ninetoothed/interpreter/runtime.py:552-560 | one program's writes pass if and only if their addresses are new and differ from each other |
| MatMulDomain.CheckWrites | src/ninetoothed/interpreter/runtime.py:445-562 | all programs pass if and only if no address is written twice and the count is the size of the output |
| MatMulDomain.AcceptedDomainCoversOnce | src/ninetoothed/interpreter/runtime.py:445-562 | an accepted domain writes every output element exactly once and nothing else |
| MatMulDomain.AcceptedLaunchComputesProduct | src/ninetoothed/interpreter/runtime.py:396-624 | running all programs and lanes of an accepted domain in any order leaves exactly the product of the source arrays, padded lanes included, whatever the output held |
| StandardDomain.StandardDomainAccepted | src/ninetoothed/interpreter/runtime.py:445-562 | for any extents and any block sizes whose operand blocks span the summed dimension, the launch with one program for each output block is accepted |
| StandardDomain.RowsApartAreSeparate | src/ninetoothed/interpreter/runtime.py:552-558 | an output whose rows do not overlap in memory, a contiguous one in particular, has a different address for each element, as the theorem above asks |
| StandardDomain.StandardLaunchComputesProduct | src/ninetoothed/interpreter/runtime.py:396-624 | so for any two matrices and such blocks the rewritten kernel, run over all programs and live lanes in any order, leaves their product |
| Layout.CalculateDefaultStrides | src/ninetoothed/tensor.py:785-792 | the loop computes the row-major strides |
| Layout.UnravelIndex | src/ninetoothed/tensor.py:775-783 | the loop computes the mixed-radix digits over those strides |
| Layout.UnsqueezeExact | src/ninetoothed/tensor.py:323-353 | the index handed on by `unsqueeze` has the length of the source's rank if and only if the dimension is in range, and is then the view index without that dimension |
| LayoutChain.CheckStep | src/ninetoothed/frontend/layout.py:72-97 | the mask of one step keeps exactly the indices in range of the tensors the step made |
| LayoutChain.EvaluateOffsetsAndMask | src/ninetoothed/frontend/layout.py:72-97 | the loop from the innermost tensor back computes the composed index maps and the accumulated mask |
| LayoutChain.ArrangementIsBijective | src/ninetoothed/tensor.py:201-578 | any chain of default-stride tiles, permute, unsqueeze, squeeze of size-1 dimensions, flatten, ravel and nonnegative pad: view indices with a true mask are in bijection with the source indices |
| LayoutChain.ExpandedArrangementCounts | src/ninetoothed/tensor.py:289-321 | with `expand` in the chain, exactly the product of the expanded sizes many view indices reach each source index |
| LayoutReads.TileReads | src/ninetoothed/tensor.py:201-287 | an element of a tile lies outer index strides and inner index spacings from the start, with -1 standing for the dimension and for the tile; side by side these are quotient and remainder |
| LayoutReads.TilesNeeded | src/ninetoothed/tensor.py:230-249 | tile o is there if and only if, in floor mode, it ends inside the tensor, and otherwise elements are left after the last one of the tile before; a zero stride gives -1 |
| LayoutReads.ExpandReads | src/ninetoothed/tensor.py:289-321 | a dimension with a new extent repeats its first element, the others stay |
| LayoutReads.UnsqueezeReads | src/ninetoothed/tensor.py:323-353 | the new dimension has one element and is left out of the index |
| LayoutReads.SqueezeReads | src/ninetoothed/tensor.py:355-392 | the kept dimensions stay in order, the others are read at zero |
| LayoutReads.PermuteReads | src/ninetoothed/tensor.py:394-423 | dimension d of the view runs along dimension order[d] of the tensor |
| LayoutReads.FlattenReads | src/ninetoothed/tensor.py:425-476 | the flattened dimension counts the flattened ones in row-major order |
| LayoutReads.PadReads | src/ninetoothed/tensor.py:539-578 | as many elements come before the tensor's first as the first amount says and as many after its last as the second |
| MatMulLayout.OperandIsBlocked | README.md:50-63 | both operands of a blocked product, for any extents and blocks: program (i, j) reads in step q and lane (r, c) the element i blocks and r along the operand's own dimension and q blocks and c along the summed one, whatever j is, under a mask that holds exactly inside; every element is read once for each copy |
| BackwardSlice.LinkEvents | src/ninetoothed/interpreter/localization.py:504-601 | the loop over events computes the links with the tables as they stand at each event |
| BackwardSlice.AcceptedTracesLinkRight | src/ninetoothed/interpreter/localization.py:453-601 | on the trace of any successful launches of an accepted program whose used block arguments have fitting dictionary entries, the links are those of the events that values came from, through carried arguments, previous yields and initial values |
| SliceStops.AcceptedTracesStop | src/ninetoothed/interpreter/localization.py:514-559 | on the same traces resolving never meets a name twice, and the only names reported as unresolved are entry arguments and shape symbols that the program's own list of symbols lacks |
| SliceTheorem.EdgesBackward | src/ninetoothed/interpreter/localization.py:504-601 | the links of any trace, over any dictionary, go strictly backward |
| DistinctArguments.DistinctArgumentsFit | src/ninetoothed/interpreter/localization.py:480-499 | if no two block arguments of a scoped program share a name, every used one has the entry of its own loop |
| DistinctLoops.DistinctLoopsLinkRight | src/ninetoothed/frontend/python.py:659-719 | an accepted kernel whose loops name their targets and what they carry apart: every full trace of it is linked as its values flowed |
| TaggedRun.OperationsErased | src/ninetoothed/interpreter/runtime.py:639-696 | the run whose values carry the events they came from is, without the tags, the evaluator's run |
| TaggedRun.BlockTags | src/ninetoothed/interpreter/runtime.py:639-696 | the tags such a run records are the expected links of its execution tree |
| TaggedRun.LinksAreTags | src/ninetoothed/interpreter/localization.py:453-601 | the slicer's links of a whole trace are the tags of the values that each event read |
| BackwardSlice.Close | src/ninetoothed/interpreter/localization.py:603-610 | the worklist returns the least set that holds the start and is closed under backward links |
| BackwardSlice.Slice | src/ninetoothed/interpreter/localization.py:453-630 | for any program and trace: a slice exists if and only if exactly one event matches the observation, its links go backward, and it is the least set closed under them from that event |
| SliceExists.EveryEventHasSlice | src/ninetoothed/interpreter/localization.py:460-472 | on the trace of successful launches with different keys no two events have one location, key and iteration, so for every index the slice observed there exists and starts there |
| FullSlice.Slice | src/ninetoothed/interpreter/localization.py:453-630 | for any program and trace the default slice is closed and least under value links together with memory links, which all go strictly backward |
| FullSlice.JoinedBackward | src/ninetoothed/interpreter/localization.py:57-114 | memory links go strictly backward, so joined links do if value links do |
| SliceMisses.CarriedLinks | src/ninetoothed/interpreter/localization.py:517-557 | in a later round the own entry resolves a carried name to the yield that ended the round before, and a dictionary that never leads to the loop never links that yield |
| LoopEntries.EntryBinds | src/ninetoothed/interpreter/localization.py:480-499 | every entry of an accepted program's dictionary is an argument of the loop it names, at its position and depth |
| LoopEntries.EntryExact | src/ninetoothed/interpreter/localization.py:517-557 | on every full trace, for a name that no result has and loops that start from no block arguments: a carried or an induction value, in any round, is linked right if and only if the dictionary's entry is the loop's own, or neither loop has ended a round and both start from the same events |
| SliceReuse.SharedArgumentsMiss | src/ninetoothed/interpreter/localization.py:480-557 | an accepted program with two loops over one name, run from any start, on whose trace the slicer loses the event of the initial value |
| SliceReuse.SharedEntryIsWrong | src/ninetoothed/interpreter/localization.py:517-557 | that program as an instance of the theorem: at the first event of the first loop the value comes from one event and the slicer links another set |
| Intervals.WrittenIntervals.Position | src/ninetoothed/interpreter/access.py:44-49 | bisection finds the first interval that ends after the start |
| Intervals.WrittenIntervals.Readers | src/ninetoothed/interpreter/access.py:51-61 | reading yields exactly the clipped pieces of the list in order |
| Intervals.WrittenIntervals.Write | src/ninetoothed/interpreter/access.py:63-80 | a write keeps the list sorted, disjoint and nonempty, and changes the byte-to-writer map on exactly its range |
| Dependencies.MergeRanges | src/ninetoothed/interpreter/access.py:22-31 | merged ranges are separated and cover exactly the same bytes |
| Dependencies.AccessRanges | src/ninetoothed/interpreter/access.py:134-173 | the ranges of an access are separated and cover exactly the bytes its lanes touch, and the overlap flag holds if and only if two lanes share a byte |
| MemoryEdges.MemoryHistory.WriteRanges | src/ninetoothed/interpreter/localization.py:73-83 | recording a write changes the last writer of exactly the given bytes of one storage |
| MemoryEdges.MemoryHistory.ReadRanges | src/ninetoothed/interpreter/localization.py:97-98 | reading changes no last writer and yields exactly the written bytes with their writers |
| MemoryEdges.Edges | src/ninetoothed/interpreter/localization.py:57-114 | on any trace a byte is on the edge from writer to reader if and only if the reader read it while the history was complete and known and that other event of the same program was its last writer; links and boundaries are exactly those of the edges and of the accesses that give a reason |
| Expressions.CompiledPlansAgree | src/ninetoothed/interpreter/expressions.py:101-190 | a compiled plan runs to the value, or the failure, of the recursive evaluator |
| ExpressionMeaning.BitsExact | src/ninetoothed/interpreter/expressions.py:21-23 | each bit of a bit operation on integers of any sign depends on the same bit of the operands as the operator says |
| ExpressionMeaning.WrapExact | src/ninetoothed/interpreter/geometry.py:15-16 | wrapping gives the one 64-bit integer of the same residue |
| ExpressionMeaning.DivisionExact | src/ninetoothed/interpreter/expressions.py:16-17 | quotient and remainder are the floor ones, and zero for a zero divisor |
| ExpressionMeaning.TwoArguments | src/ninetoothed/interpreter/expressions.py:160-190 | minimum, maximum and ceiling division by their defining inequalities |
| ExpressionMeaning.OneArgument | src/ninetoothed/interpreter/expressions.py:93-97 | absolute value, roundings of integers, and the next power of two as the least one |
| Bounds.BoundsAreSound | src/ninetoothed/interpreter/geometry.py:106-189 | where the analysis gives bounds, the value lies in them, every subexpression fits 64 bits, and wrapped and exact evaluation agree, for all operators |
| BoundsTight.BoundsAreTight | src/ninetoothed/interpreter/geometry.py:106-189 | for integer arithmetic that reads no symbol twice the analysis is exact: bounds exist if and only if every assignment keeps every subexpression in 64 bits and every divisor positive, and assignments attain both bounds |
| BoundsTight.ConditionsAreTight | src/ninetoothed/interpreter/geometry.py:135-143 | a condition built over such arithmetic has bounds if and only if that arithmetic is good for every assignment |
| BoundsTight.RemainderBounds | src/ninetoothed/interpreter/geometry.py:180-184 | a remainder has bounds if and only if the divisor's range is positive, and they are zero and the divisor's largest value less one |
| BoundsTight.BitsBounds | src/ninetoothed/interpreter/geometry.py:145-161 | bits of natural numbers stay below the least power of two above both, those of a conjunction below each, and others may be anything |
| Geometry.BoundsWithMemo | src/ninetoothed/interpreter/geometry.py:76-83 | the memoised analysis gives the bounds of the plain one, with a memo shared across the plan |
| Geometry.ReferencedSymbols | src/ninetoothed/interpreter/geometry.py:86-103 | the worklist collects exactly the symbols that occur in the roots |
| Geometry.KeyDeterminesAccess | src/ninetoothed/interpreter/geometry.py:268-280 | two references to one layout with equal keys have the same address map |
| Geometry.ProvenAccessIsExact | src/ninetoothed/interpreter/geometry.py:282-333 | a proven map is computed within the machine's integers: wrapped and exact coordinates agree on every lane |
| AddressMaps.DirectAccessExact | src/ninetoothed/interpreter/memory.py:137-206 | the address map exists if and only if every lane of the block evaluates and stays inside the source when live, and holds at each row-major position the mask and the coordinates of that lane |
| AddressMaps.LaneAtPosition | src/ninetoothed/interpreter/memory.py:163-170 | every lane of a block is listed at its row-major position |
| AddressMaps.LaneSees | src/ninetoothed/interpreter/memory.py:145-170 | a lane sees its own coordinates, the extracted ones and the outer index under their names, and the symbols of the reference under all others |
| ProvenMaps.ProvenExactly | src/ninetoothed/interpreter/geometry.py:282-333 | which maps the cache keeps, where no index reads a symbol twice: those whose numbers fit 64 bits, with positive extents and at most 65536 lanes, in each of which mask and indices are computed within 64 bits with positive divisors |
| ProvenMaps.CacheableExact | src/ninetoothed/interpreter/geometry.py:45-73 | the cache looks at exactly the innermost levels whose extents, mask and indices all compile completely, with 64-bit constants, and are at most 128 operators deep |
| Geometry.ExtractionGeometry.Access | src/ninetoothed/interpreter/geometry.py:192-333 | the cache answers with the direct address map whenever its recorded layout is still the one with that identity, serves hits from the stored value, and states its new entry |
| Geometry.ExtractionGeometry.AccessAll | src/ninetoothed/interpreter/geometry.py:192-333 | over any sequence of references in which an identity denotes one layout, every answer is the direct address map |
| Geometry.KeyIgnoresLayout | src/ninetoothed/interpreter/geometry.py:223-274 | two proven references with one identity, equal keys and different address maps |
| Geometry.StaleLayout | src/ninetoothed/interpreter/geometry.py:223-280 | two calls on one cache of which the second is answered wrongly |
| Strides.HasNonOverlappingStrides | src/ninetoothed/compiler/layout_runtime.py:180-214 | true means that distinct indices have distinct addresses at any rank and stride signs; with at most two dimensions larger than one the converse holds too, and contiguous or empty views always pass |
| Strides.GreedySound | src/ninetoothed/compiler/layout_runtime.py:206-214 | the greedy test on sorted strides excludes collisions at any rank |
| Strides.TwoApart | src/ninetoothed/compiler/layout_runtime.py:197-204 | where the gcd test accepts, no two index differences cancel |
| Strides.TwoCollide | src/ninetoothed/compiler/layout_runtime.py:197-204 | where it rejects, two indices collide |
| Strides.GreedyExact | src/ninetoothed/compiler/layout_runtime.py:206-214 | the greedy test accepts exactly the dimensions of which some order has each stride beyond the span of those before |
| Strides.ContiguousPasses | src/ninetoothed/compiler/layout_runtime.py:180-214 | contiguous strides of any rank pass |
| Strides.ThreeDimensionsIncomplete | src/ninetoothed/compiler/layout_runtime.py:206-214 | three dimensions without a collision that the test rejects |
| Storage.StorageGroups | src/ninetoothed/interpreter/storage.py:9-47 | the groups partition the views, each spans its members' bytes and could nowhere be cut without cutting a member, and different groups are disjoint |
| StorageSpans.SpanIsTight | src/ninetoothed/interpreter/storage.py:22-34 | a view with elements occupies the first and the last byte of its span, an empty one spans nothing |
| StorageSpans.GroupsInInputOrder | src/ninetoothed/interpreter/storage.py:45-47 | views of a group are in input order and groups in the order of their first views |
| StorageSpans.AcceptsExactly | src/ninetoothed/interpreter/storage.py:61-111 | the check of `restore_view` accepts exactly the descriptors that start in the buffer, or at its end, and whose every element lies within it |
| StorageSpans.BufferSizeExact | src/ninetoothed/interpreter/storage.py:123-127 | a buffer is as long as its group's span, or as its largest item where that is longer |
| Storage.WriteElements | src/ninetoothed/interpreter/storage.py:148-149 | writing a view into a buffer sets exactly the bytes its elements touch |
| Storage.FillBuffer | src/ninetoothed/interpreter/storage.py:123-151 | a group's buffer holds the original bytes of all its members, for any signs and overlaps of strides |
| Storage.AliasIsomorphism | src/ninetoothed/interpreter/storage.py:61-153 | two placed elements share a byte of a buffer if and only if the originals shared it |
| Storage.CopyStorage | src/ninetoothed/interpreter/storage.py:114-153 | every view is copied and accepted by the check of `restore_view`, reads its original bytes, aliases exactly as before, and views of one object stay one object |
| CooperativeReduction.StridedCovers | src/ninetoothed/backends/emitters/cuda.py:436-444 | the strided shares of all threads fold to the whole |
| CooperativeReduction.WarpFold | src/ninetoothed/backends/emitters/cuda.py:446-455 | five shuffle-down stages leave the fold of 32 lanes in lane 0 |
| CooperativeReduction.FoldTerms | src/ninetoothed/backends/emitters/cuda.py:435-445 | each thread's loop folds its strided share, for extents of any size |
| CooperativeReduction.ShuffleTree | src/ninetoothed/backends/emitters/cuda.py:446-455 | the lock-step tree leaves the fold of each warp in its leader |
| CooperativeReduction.ReduceShared | src/ninetoothed/backends/emitters/cuda.py:456-481 | eight shared words and a second tree fold the leaders of all warps, whatever the shared words held |
| CooperativeReduction.Reduce | src/ninetoothed/backends/emitters/cuda.py:435-489 | for any commutative monoid, any extent and any supported thread count the generated code returns the sequential fold and stays inside the shared array |
| CooperativeReduction.SupportedExactly | src/ninetoothed/backends/emitters/cuda.py:184-185 | the supported thread counts are exactly those of whole warps, at least one, that fit the eight shared words |
| TiledTranspose.OwnerStores | src/ninetoothed/backends/emitters/triton.py:402-425 | every destination element has a program and a lane that store it |
| TiledTranspose.OnlyOwnerStores | src/ninetoothed/backends/emitters/triton.py:402-425 | and no other program or lane does |
| TiledTranspose.LoadBlock | src/ninetoothed/backends/emitters/triton.py:380-478 | a live lane of the loaded tile is the source element with its indices swapped, in both forms of the load |
| TiledTranspose.RunProgram | src/ninetoothed/backends/emitters/triton.py:402-487 | one program stores the transposed source at exactly the elements it owns |
| TiledTranspose.RunStrided | src/ninetoothed/backends/emitters/triton.py:617-648 | the grid-stride loop of one launched program executes every logical program congruent to it |
| TiledTranspose.Launch | src/ninetoothed/backends/emitters/triton.py:374-648 | any grid with a limit not below the warp count executes every logical program once and leaves the transpose in the destination; otherwise it is refused and nothing is written |
| TiledTranspose.GridSizeExact | src/ninetoothed/backends/emitters/triton.py:639-648 | a limited grid launches as many programs as there are, or else as many as fit the limit |
| LaunchCache.IdsMatch | src/ninetoothed/compiler/runtime.py:370-396 | a general guard that matches while its tensors are alive was made for the same tensors and the same numbers |
| LaunchCache.KeyMatch | src/ninetoothed/compiler/runtime.py:474-543 | so was a two-tensor guard, but for numbers inside tensors |
| LaunchCache.Reusable | src/ninetoothed/compiler/runtime.py:928-986 | a stored entry whose guard matches fits the call unless the call binds a tensor's number |
| LaunchCache.BoundNumberGoesStale | src/ninetoothed/compiler/runtime.py:412-515 | whenever a two-tensor call binds a tensor's number, changing that number leaves a matching guard with the old number |
| LaunchCache.StaleNumber | src/ninetoothed/compiler/runtime.py:893-986 | two calls of one cache of which the second runs with the number of the first |
| LaunchCache.VerifiedLaunch.Remember | src/ninetoothed/compiler/runtime.py:831-916 | a new launch replaces the entry of its identity, the oldest goes when there are eight, and its owners are armed with a fresh token |
| LaunchCache.VerifiedLaunch.Evict | src/ninetoothed/compiler/runtime.py:898-907 | eviction removes exactly the entry of its identity and token, and the active slot of that token |
| LaunchCache.VerifiedLaunch.Collect | src/ninetoothed/compiler/runtime.py:909-926 | when an object dies its callbacks remove exactly the launches that own it, from the table and the active slot, although its id may be used again |
| LaunchCache.VerifiedLaunch.Verified | src/ninetoothed/compiler/runtime.py:928-986 | the whole new state of a call; what it invokes is prepared for this call or was guarded for the same live tensors and the same numbers, unless the call binds a tensor's number |
| RepeatedCalls.StoredLaunchFound | src/ninetoothed/compiler/runtime.py:928-986 | a stored launch whose guard was made for this very call is found and matches if and only if the call is not one of two tensors and a scalar, or the launch last used gives it a key |
| RepeatedCalls.CallTwice | src/ninetoothed/compiler/runtime.py:928-986 | the same call made twice in a row, with nothing changed in between, prepares once and then invokes the launch it stored |
| RepeatedCalls.ForgottenCall | src/ninetoothed/compiler/runtime.py:893-986 | a call of two tensors and a scalar, another call, and the first again: the stored launch is not found and a new one is prepared |

## Left out

- The typing rules of expressions: lowering takes them as a parameter, so the results hold for all of them.
- Floating point, NaN, dtype promotion and casts: arithmetic is over integers, and for the reduction over any commutative monoid, which excludes the signed zero and rounding of floats.
- Tensors of a rank other than two in the interpreter, raw pointers, jagged tensors and their owners, and custom opcode handlers.
- Arrays in the interpreter are values in a map that the execution object replaces; aliasing between arrays of one run is modelled in `Storage` and `Geometry` only, not in `Interpreter`.
- Nested levels of a layout in the interpreter: its views are already arranged blocks, and `Layout` describes how they arise.
- An operation other than a loop or branch with two or more results: the source unpacks a value of that length into them, the model faults.
- Trace filters, watches, snapshots and callbacks, and the stop messages of a slice about memory that was not recorded and about regions of other operations.
- Boolean operators, comparison chains, tuples, attributes, partial subscripts and subscript targets of augmented assignments in the frontend.
- A store or an `unsqueeze` that the source rejects only by an index error of its own is not modelled as an error: a consumed store with fewer than two operands, which the verifier refuses, is left unchanged by the pass.
- Decomposed stores with indices: validity is proved for them, meaning is not; the scalar store keeps the indices of the whole-tile store.
- Tiles with strides or spacing of their own, and negative pads, are modelled as index maps but have no bijection result, because they repeat or lose elements.
- `_slice_dim` and indexing of levels in `tensor.py`.
- The schedule for tiles that arrive already cut (`triton.py:429-443`), tensor-core dot products and the text of generated kernels.
- Plan identity in the geometry cache is structural equality, as `_ExpressionIdentity` compares.
- Provenance records of the pass and the result comparison of `localization.py`.
- Torch itself, files, locks, toolchains and tuning; a call and a collection callback of the launch cache are one step each.
- Execution.Execution.Block: says nothing of the memory and the events after an operation raised; the source's caller discards both.
- Execution.Execution.Programs: covers the decomposed matmul of three named tensors, because the domain check that gives its theorem does.
- LoopEntries.EntryExact: asks that no result has the argument's name and that the loop and the one its entry names start from no block arguments, because a start that is one may lead back to the loop through another entry; `SliceMisses.CarriedLinks` covers that case one way each.
- BackwardSlice.AcceptedTracesLinkRight: asks for `UsesFit` of the whole program; that it is needed is shown for one use at a time, in `LoopEntries`.
- DecompositionKeeps.DecompositionKeepsValid: its conditions on removed values, the K extent and symbols are shown sufficient only; that on the hard-coded names is exact in `DecompositionExact`, where no removed value has such a name.
- ProgramReplay.ProgramReplays: covers one product and one store of it; the order of the stores of several outputs under replay is not modelled, nor is broadcasting a smaller product over the output.
- ScopesMatter.CarriedTargetExact: asks that nothing else in scope goes stale in the loop.
- TransposeReplay.TransposePreservesMeaning: asks that the arrangements mirror each other; `TransposeExact` gives the exact condition where live output lanes address elements of their own.
- BoundsTight.BoundsAreTight: where a symbol is read twice the analysis is sound and not exact, because it does not relate the two readings; of remainders and bit operations on ranges the bounds are stated, not that assignments attain them.
- ProvenMaps.ProvenExactly: asks the same of the indices and extents of a map, and that nothing they read is a truth value.
- StandardDomain.StandardDomainAccepted: its operand blocks span the summed dimension, as the source's check demands of scalar code in several programs.
- MatMulLayout.OperandIsBlocked: asks for positive extents, because an empty dimension gives a gathered tile of stride zero.
