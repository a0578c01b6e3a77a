# Aggressive loop unrolling and the expat tree builder, in Dafny

This project models two pieces of one repository.

**The aggressive loop unroller.** `Pass/LoopUnrollAggressivePass.cpp` is a loop pass. It takes a single-block counted loop whose exit test is `icmp NE/EQ (add x, 1), upper`. It flattens the function's phis into stack slots. It splits the preheader. It builds a remainder guard: a switch on `upper urem count` that enters a chain of header clones. It then replicates the body `count - 1` times and closes the chain back to the header.

The model has four layers:
- `UnrollDecision` is the pass's configuration and constructor, the loop-size estimate, the threshold and unroll-count policy, and the chain of eligibility checks. Each check either rejects with the reason of its early return or accepts with a plan.
- `UnrollSpec` writes each stage of the rewrite as a function of the function before it: the alloca point, phi demotion, the split, the guard, the body replication, and the loop-nest membership.
- `UnrollPass` is the pass as the source runs it. A class `IRState` holds the blocks and the loop nest, and its methods update them in place. A class `LoopUnrollAggressive` holds the configuration and the statistic. Every method is proved to compute the corresponding `UnrollSpec` function.
- `UnrollSemantics` is a fuel-bounded execution of the blocks that counts the induction variable. It proves the iteration-count theorems for the loop before and after the rewrite.

The IR is abstract:
- a function is a sequence of blocks, addressed by index;
- a block is a list of instruction kinds, an address-taken flag and a terminator;
- the one instruction the semantics interprets is the counted increment `IndVarInc`, and a block adds one to the counter per increment it holds;
- new blocks are appended at the end of the sequence, as `push_back` does.

**The XML-to-object builder.** `other/expat2.py` has two classes:
- `Element` holds a name, attributes, character data and children;
- `Xml2Obj` builds a forest of elements from the expat callbacks, keeping a stack of open elements.

Both become Dafny classes with the same fields. `Xml2Obj` carries a stack invariant (`Valid`) that every handler preserves. Expat itself is replaced by an explicit sequence of events (`Replay`).

Three points about the code's behaviour:
- The unroll count starts at 4 whatever the count option says. The stored count is never read (`CurrentCountUnused`).
- There is one guard chain of `count - 1` header clones, shared by all cases. Case `i` enters it at clone `i` and runs `i` clones.
- The rewrite keeps the iteration count only for trip counts of at least the unroll factor. See "## Findings".

## Model

| member | source | states |
|---|---|---|
| `UnrollDecision.MakeConfig` | Pass/LoopUnrollAggressivePass.cpp:55-58 | An explicit threshold or count of -1 takes the option value. Other values are reinterpreted as unsigned, so negative ones wrap modulo 2^32. The threshold is user-specified exactly when it is explicit or the option was given. |
| `UnrollDecision.ToUnsigned` | Pass/LoopUnrollAggressivePass.cpp:56-57 | `unsigned(x)` keeps non-negative values and adds 2^32 to negative ones. |
| `UnrollDecision.DefaultConstruction` | Pass/LoopUnrollAggressivePass.cpp:43-58 | Under the default options, a pass built without arguments has threshold 150, is not user-specified, and falls back to 50 under optimise-for-size. |
| `UnrollDecision.ApproximateLoopSize` | Pass/LoopUnrollAggressivePass.cpp:112-130 | The size is the instruction count, raised to 1 when it is 0. It is never below 1. |
| `UnrollDecision.EffectiveThreshold` | Pass/LoopUnrollAggressivePass.cpp:189-194 | Under optimise-for-size without a user threshold the threshold is 50. Otherwise it is the configured threshold. |
| `UnrollDecision.UnrollCount` | Pass/LoopUnrollAggressivePass.cpp:199-228 | No threshold gives 4. Otherwise a non-duplicatable body rejects first. The only rejections are the non-duplicatable body, inline candidates and a count below 2. A count other than 4 arises only when 4 copies exceed the threshold, and is then the threshold divided by the size. |
| `UnrollDecision.UnrollCountPolicy` | Pass/LoopUnrollAggressivePass.cpp:199-228 | With no threshold the count is 4. Otherwise a non-duplicatable body or an inline candidate rejects. An accepted count lies in 2..4, fits the threshold, and is the largest such count up to 4. The count policy rejects exactly when the threshold is below twice the size. |
| `UnrollDecision.SizeProductFits64` | Pass/LoopUnrollAggressivePass.cpp:217 | The 64-bit product `LoopSize * Count` cannot wrap, so an unbounded product models it exactly. |
| `UnrollDecision.ThresholdShrinkExample` | Pass/LoopUnrollAggressivePass.cpp:217-226 | 40 instructions against the threshold 150 give the count 3. |
| `UnrollDecision.Canonicalize` | Pass/LoopUnrollAggressivePass.cpp:175-183 | The exit index and latch index are 0 and 1, one of each. The exit is successor 0 unless successor 0 is the latch. When exactly one successor is the latch, the latch index selects it and the exit block is not the latch. |
| `UnrollDecision.CheckCountedExit` | Pass/LoopUnrollAggressivePass.cpp:234-285 | The exit-test checks pass exactly when four things hold (`CountedExitTest`): the increment is `add _, 1`, the predicate is NE with the latch as successor 0 or EQ with the latch as successor 1, the bound is an integer, and the bound is an argument or an instruction outside the loop. If the increment is not an add, the first check rejects it. |
| `UnrollDecision.CheckCountedExitReasons` | Pass/LoopUnrollAggressivePass.cpp:242-284 | Each reason the checks give names a check that failed: the predicate for the latch index, the bound's type, its loop invariance, or the step of one. |
| `UnrollDecision.Decide` | Pass/LoopUnrollAggressivePass.cpp:132-285 | A disabled pass rejects. An accepted plan has the loop's preheader and header and a count in 2..4. |
| `UnrollDecision.DecideAcceptIff` | Pass/LoopUnrollAggressivePass.cpp:132-285 | A loop is accepted exactly when the pass is enabled, every shape check passes, the count policy yields a count and the exit test is a counted one. The plan then carries the canonical exit, the canonical indices and that count. |
| `UnrollDecision.ShapeFailureRejects` | Pass/LoopUnrollAggressivePass.cpp:133-173 | A disabled pass, a missing preheader, a multi-block body, a latch without a conditional branch, an address-taken header or a non-icmp condition rejects, whatever the metrics. |
| `UnrollDecision.CurrentCountUnused` | Pass/LoopUnrollAggressivePass.cpp:199 | Changing the stored count changes no decision. |
| `UnrollSpec.WithAllocaPoint` | Pass/LoopUnrollAggressivePass.cpp:293-303 | The entry block's instructions are its leading allocas, the alloca point, then the rest in order. Its terminator and flag and every other block are unchanged. |
| `UnrollSpec.LeadingAllocas` | Pass/LoopUnrollAggressivePass.cpp:297-298 | The index of the first non-alloca: every instruction before it is an alloca, and the one at it is not. |
| `UnrollPass.FirstNonAlloca` | Pass/LoopUnrollAggressivePass.cpp:297-298 | The scanning loop stops at the first non-alloca, which is `LeadingAllocas`. |
| `UnrollPass.IRState.InsertAllocaPoint` | Pass/LoopUnrollAggressivePass.cpp:293-303 | The entry block gains the alloca point just after its leading allocas. Nothing else changes. |
| `UnrollPass.CollectPhis` | Pass/LoopUnrollAggressivePass.cpp:305-315 | The worklist holds exactly the phis of the function, in reverse program order (`push_front`). |
| `UnrollPass.IRState.DemotePhis` | Pass/LoopUnrollAggressivePass.cpp:317-320 | Demoting every phi of the worklist gives `DemoteAll` of the function: each phi becomes a reload, and terminators, flags and lengths are kept. |
| `UnrollSpec.DemoteInsts` | Pass/LoopUnrollAggressivePass.cpp:317-320 | Demotion keeps the length of a block, leaves no phi and keeps every other instruction in place. |
| `UnrollSpec.DemoteAll` | Pass/LoopUnrollAggressivePass.cpp:317-320 | Demoting every block keeps the block count, each terminator and each address-taken flag, and leaves no phi. |
| `UnrollPass.IRState.Reg2Mem` | Pass/LoopUnrollAggressivePass.cpp:293-321 | The reg2mem step computes `Flattened`. |
| `UnrollSpec.Flattened` | Pass/LoopUnrollAggressivePass.cpp:293-321 | The flattened function has the same blocks, terminators and address-taken flags, and no phi. |
| `UnrollSpec.FlattenedKeepsIncs` | Pass/LoopUnrollAggressivePass.cpp:293-321 | Flattening neither adds nor removes a counted increment in any block. |
| `UnrollSpec.Split` | Pass/LoopUnrollAggressivePass.cpp:331-332 | The preheader branches to a new, empty last block, which takes over the preheader's terminator. Every other block is unchanged. |
| `UnrollPass.IRState.SplitPreheader` | Pass/LoopUnrollAggressivePass.cpp:331-332 | The preheader branches to a new last block that takes over its terminator. The new block joins every loop of the nest that holds the preheader. |
| `UnrollSpec.SplitNest` | Pass/LoopUnrollAggressivePass.cpp:332 | After the split, a loop holds the new block exactly when it holds the preheader. Nothing else joins or leaves a loop. |
| `UnrollSpec.GuardCases` | Pass/LoopUnrollAggressivePass.cpp:341-366 | There are `m` cases with strictly increasing values ranging over `1..m`, and case value `v` targets block `entry + v`. |
| `UnrollSpec.GuardSwitch` | Pass/LoopUnrollAggressivePass.cpp:336-343 | The old preheader keeps its instructions, with the `urem` appended before the terminator. Its terminator becomes a switch on `upper urem count` with the body entry as default and `m` cases. |
| `UnrollSpec.GuardChain` | Pass/LoopUnrollAggressivePass.cpp:345-367 | The `m` guard clones hold the header's instructions, have no address taken, and each branches to the block before it. |
| `UnrollSpec.Guarded` | Pass/LoopUnrollAggressivePass.cpp:334-368 | The guard adds `count - 1` blocks. The preheader becomes the switch block. Every other old block is unchanged, and each new block is a header clone branching to the block before it. |
| `UnrollPass.IRState.BuildGuard` | Pass/LoopUnrollAggressivePass.cpp:334-368 | The guard loop computes `Guarded`: the preheader appends the `urem` and switches on it with cases `1..count-1` and a default to the body entry, and the header clones are chained. Each clone joins the enclosing loops only (`GuardNest`). |
| `UnrollSpec.BodyChain` | Pass/LoopUnrollAggressivePass.cpp:378-394 | The `m` body clones hold the same instructions, have no address taken, and each branches to the next. The last one ends in the given terminator. |
| `UnrollSpec.Bodied` | Pass/LoopUnrollAggressivePass.cpp:375-398 | The body loop adds `count - 1` blocks. The header branches to the first of them, each branches to the next, and the last ends in `Close` of the header's branch. Every other old block is unchanged. |
| `UnrollPass.IRState.UnrollBody` | Pass/LoopUnrollAggressivePass.cpp:375-398 | The body loop computes `Bodied`: header, then clone 1, and so on up to clone `count-1`. The last clone's latch successor goes to the header and its exit successor to the exit block. Each clone joins the loop and every loop around it (`BodyNest`). |
| `UnrollSpec.Close` | Pass/LoopUnrollAggressivePass.cpp:395-397 | The closed branch keeps its condition, with the header at the latch index and the exit block at the exit index. |
| `IR.Successor` | Pass/LoopUnrollAggressivePass.cpp:176-180 | `getSuccessor(0)` is the first successor and `getSuccessor(1)` the second. |
| `IR.CloneBlock` | Pass/LoopUnrollAggressivePass.cpp:350 | A clone has the block's instructions and terminator, and its address is not taken. |
| `IR.SetSuccessor` | Pass/LoopUnrollAggressivePass.cpp:396-397 | `setSuccessor(idx, b)` changes that successor only. |
| `UnrollSpec.Unrolled` | Pass/LoopUnrollAggressivePass.cpp:331-398 | The rewritten function has `2*count - 1` more blocks. Every old block other than the preheader and the header is unchanged. |
| `UnrollSpec.UnrolledLayout` | Pass/LoopUnrollAggressivePass.cpp:331-398 | The unrolled function has `n0 + 2*count - 1` blocks: the switch block, the body entry, guard clone `i` branching to clone `i-1`, the header branching to the first body clone, the body chain and its closed last clone. Every other block is unchanged. |
| `UnrollSpec.AddToLoops` | Pass/LoopUnrollAggressivePass.cpp:353-355 | `addBasicBlockToLoop` on a loop adds the block to that loop and to every loop around it, and to no other loop. |
| `UnrollSpec.NestAfter` | Pass/LoopUnrollAggressivePass.cpp:331-383 | After the rewrite a loop holds its old blocks and the body clones. A loop that held the preheader also holds the body entry. Every enclosing loop, but not the unrolled one, also holds the guard clones. |
| `UnrollSpec.NestStages` | Pass/LoopUnrollAggressivePass.cpp:331-383 | The membership after the rewrite is what the split, the guard loop and the body loop add in turn. |
| `UnrollSpec.GuardNest` | Pass/LoopUnrollAggressivePass.cpp:352-355 | The guard clones join exactly the loops around the unrolled loop. |
| `UnrollSpec.BodyNest` | Pass/LoopUnrollAggressivePass.cpp:383 | The body clones join the unrolled loop and every loop around it. |
| `UnrollSpec.CloneMembership` | Pass/LoopUnrollAggressivePass.cpp:352-383 | Every body clone is in the unrolled loop and in every loop around it. A guard clone is in every enclosing loop and never in the unrolled loop. Old blocks keep their membership. The body entry is in exactly the loops that hold the preheader. |
| `UnrollPass.AcceptedPlanFits` | Pass/LoopUnrollAggressivePass.cpp:145-228 | An accepted plan meets what the rewrite needs, before and after flattening. |
| `UnrollPass.LoopUnrollAggressive.constructor` | Pass/LoopUnrollAggressivePass.cpp:55-60 | The pass stores `MakeConfig` of its arguments and options, and starts with no unrolled loops. |
| `UnrollPass.LoopUnrollAggressive.RunOnLoop` | Pass/LoopUnrollAggressivePass.cpp:132-434 | `runOnLoop` returns true exactly when `Decide` accepts. A rejected loop leaves the function and the nest untouched. An accepted loop leaves `Unrolled(Flattened(f))` with membership `NestAfter`. The statistic grows by one per unrolled loop. |
| `UnrollPass.IRState.Rewrite` | Pass/LoopUnrollAggressivePass.cpp:293-398 | The stages of the rewrite (reg2mem, the preheader split, the guard and the body replication) leave exactly `Unrolled(Flattened(f))`, with membership `NestAfter`. |
| `UnrollSemantics.AcceptedIsCountedLoop` | Pass/LoopUnrollAggressivePass.cpp:169-285 | An accepted loop, given the loop-analysis facts and one increment in the header, is a counted loop whose branch exits exactly when the incremented counter equals `upper`. |
| `UnrollSemantics.FlattenedCountedLoop` | Pass/LoopUnrollAggressivePass.cpp:293-321 | Flattening keeps a counted loop counted. |
| `UnrollSemantics.ExitTestStep` | Pass/LoopUnrollAggressivePass.cpp:243-258 | A block carrying the counted exit test leaves for the exit exactly when its incremented counter equals the bound. Otherwise it takes the latch successor. |
| `UnrollSemantics.OriginalFromHeader` | Pass/LoopUnrollAggressivePass.cpp:243-258 | From the header with the counter below `u`, the original loop exits with the counter at exactly `u`. |
| `UnrollSemantics.OriginalDiverges` | Pass/LoopUnrollAggressivePass.cpp:243-258 | From the header with the counter at or past `u`, the original loop never exits. |
| `UnrollSemantics.OriginalTripCount` | Pass/LoopUnrollAggressivePass.cpp:232-285 | The original loop exits after exactly `u` iterations for `u >= 1`, and never for `u = 0`. |
| `UnrollSemantics.GuardCasesTarget` | Pass/LoopUnrollAggressivePass.cpp:341-366 | Case value `v` of the guard switch goes to guard clone `v` when `1 <= v <= count-1`, and to the default otherwise. |
| `UnrollSemantics.SwitchStep` | Pass/LoopUnrollAggressivePass.cpp:339-342 | The switch block goes to the body entry when `upper urem count = 0`, and to guard clone `upper urem count` otherwise. |
| `UnrollSemantics.UnrolledSteps` | Pass/LoopUnrollAggressivePass.cpp:331-398 | This is what each block of the source's rewrite does in one step. Guard clone 1 branches straight to the body entry. |
| `UnrollSemantics.UnrolledChainSteps` | Pass/LoopUnrollAggressivePass.cpp:345-367 | Each guard clone after the first counts one iteration and falls through to the clone below it. |
| `UnrollSemantics.UnrolledBodySteps` | Pass/LoopUnrollAggressivePass.cpp:376-394 | Each body clone but the last counts one iteration and goes on to the next clone. |
| `UnrollSemantics.GuardChainRun` | Pass/LoopUnrollAggressivePass.cpp:345-367 | Guard clone `i` runs `i - 1` iterations down to guard clone 1. |
| `UnrollSemantics.BodyChainRun` | Pass/LoopUnrollAggressivePass.cpp:376-394 | The body chain runs one iteration per clone up to the last clone. |
| `UnrollSemantics.OnePass` | Pass/LoopUnrollAggressivePass.cpp:376-398 | One pass from the header runs `count` iterations, then exits exactly if the counter reaches `upper`. Otherwise it is back at the header. |
| `UnrollSemantics.MainLoopExits` | Pass/LoopUnrollAggressivePass.cpp:376-398 | `k` whole passes from counter `c` reach the exit with the counter at exactly `c + k*count`. |
| `UnrollSemantics.PassArithmetic` | Pass/LoopUnrollAggressivePass.cpp:376-398 | When the bound is the counter plus `k` whole passes of `count` iterations, one pass ends at the bound if `k = 1` and stays below it otherwise, with `k - 1` passes left. |
| `UnrollSemantics.MainLoopDiverges` | Pass/LoopUnrollAggressivePass.cpp:376-398 | From the header with the counter at or past `upper`, the unrolled loop never exits. |
| `UnrollSemantics.LongTripsExit` | Pass/LoopUnrollAggressivePass.cpp:334-398 | With `u >= count`, the guard runs `u urem count` iterations and then whole passes do the rest, `u` iterations in all. |
| `UnrollSemantics.LongTripsFromSwitch` | Pass/LoopUnrollAggressivePass.cpp:339-398 | If the switch picks guard clone `v` (or the body entry when `v = 0`) and `u = v + k*count` with `k >= 1`, the run exits after exactly `u` iterations. |
| `UnrollSemantics.UnrolledTripCount` | Pass/LoopUnrollAggressivePass.cpp:334-398 | The source's rewrite keeps the iteration count for every bound `u >= count`: exactly `u` iterations, as in the original loop. |
| `UnrollSemantics.UnrolledMissesShortTrips` | Pass/LoopUnrollAggressivePass.cpp:345-367 | For `1 <= u < count` the original loop exits after `u` iterations, but the source's rewrite never exits. |
| `UnrollSemantics.ShortTripsDiverge` | Pass/LoopUnrollAggressivePass.cpp:345-367 | In the source's layout a bound below the count is passed before the first exit test. |
| `UnrollSemantics.PassResultTripCount` | Pass/LoopUnrollAggressivePass.cpp:293-398 | The function `runOnLoop` leaves keeps the original iteration count for `u >= count`, and never exits for `1 <= u < count`. |
| `UnrollSemantics.TenTripsByFour` | Pass/LoopUnrollAggressivePass.cpp:339-398 | With factor 4 and trip count 10, `10 urem 4 = 2` and the loop exits after exactly 10 iterations. |
| `UnrollSemantics.ShortTripExample` | Pass/LoopUnrollAggressivePass.cpp:345-367 | With factor 4 and trip count 2, the original exits after 2 iterations and the rewrite does not exit within 1000 blocks. |
| `UnrollSpec.GuardExit` | Pass/LoopUnrollAggressivePass.cpp:362-363 | The repaired guard-clone branch keeps the header's condition, with the body entry at the latch index and the exit block at the exit index. |
| `UnrollSpec.UnrolledFixed` | Pass/LoopUnrollAggressivePass.cpp:345-367 | The corrected rewrite differs from the source's rewrite in one block only, guard clone 1. That block keeps the header's instructions and gets the `GuardExit` branch. |
| `UnrollSemantics.FixedSteps` | Pass/LoopUnrollAggressivePass.cpp:345-367 | In the corrected rewrite, guard clone 1 exits when its counter reaches the bound and enters the body otherwise. The rest of the layout is the source's. |
| `UnrollSemantics.FixedZeroTrips` | Pass/LoopUnrollAggressivePass.cpp:339-367 | In the source's layout and in the corrected one alike, a bound of 0 never reaches the exit. |
| `UnrollSemantics.FixedExits` | Pass/LoopUnrollAggressivePass.cpp:345-367 | The corrected layout reaches the exit after exactly `u` iterations for every `u >= 1`. |
| `UnrollSemantics.FixedTripCount` | Pass/LoopUnrollAggressivePass.cpp:345-367 | The corrected rewrite runs exactly as the original loop for every bound: `u` iterations for `u >= 1`, no exit for `u = 0`. |
| `UnrollPass.IRState.KeepGuardExit` | Pass/LoopUnrollAggressivePass.cpp:362-363 | The repair gives guard clone 1 a copy of the exit test instead of its plain branch. Nothing else changes. |
| `UnrollPass.KeepGuardExitCorrects` | Pass/LoopUnrollAggressivePass.cpp:345-398 | Repairing the source's rewrite in place yields `UnrolledFixed`. |
| `UnrollPass.LoopUnrollAggressive.RunOnLoopCorrected` | Pass/LoopUnrollAggressivePass.cpp:132-434 | `runOnLoop` followed by the repair accepts the same loops and leaves `UnrolledFixed(Flattened(f))`. |
| `UnrollSemantics.CorrectedPassTripCount` | Pass/LoopUnrollAggressivePass.cpp:293-398 | The corrected pipeline's result runs exactly as the original loop for every bound. |
| `Expat2.Element.constructor` | other/expat2.py:8-12 | A new element has the given name and attributes, empty character data and no children. |
| `Expat2.Element.AddChild` | other/expat2.py:13-14 | `addChild` appends to the children, and the character data is unchanged. |
| `Expat2.Element.GetAttribute` | other/expat2.py:15-16 | The result is present exactly when the key is in the attribute map, and is then its value. |
| `Expat2.Element.GetElements` | other/expat2.py:19-23 | The empty name gives all children. Any other name gives children of that name, and every child of that name is in the result. |
| `Expat2.ChildrenNamed` | other/expat2.py:21 | The filter keeps exactly the children that have the name, and is never longer than its input. |
| `Expat2.ChildrenNamedAppend` | other/expat2.py:21 | Filtering distributes over concatenation, so the children's order is kept. |
| `Expat2.GetElementsAfterAdd` | other/expat2.py:13-23 | After `addChild(e)`, `getElements(name)` gains `e` at its end exactly when `e` has that name. |
| `Expat2.Strip` | other/expat2.py:46 | `data.strip()` is a slice of the data, everything cut off on either side is whitespace, and the result neither starts nor ends with whitespace. |
| `Expat2.SliceOfSlice` | other/expat2.py:46 | A prefix of a suffix is a slice. If what lies outside the suffix and past the prefix is blank, that slice has blank surroundings and starts as the suffix does. |
| `Expat2.StripEmptyIff` | other/expat2.py:46 | `data.strip()` is empty exactly when every character is whitespace. |
| `Expat2.StripLeft` | other/expat2.py:46 | Left stripping returns a suffix of the input. Everything it removes is whitespace, and the result does not start with whitespace. |
| `Expat2.StripRight` | other/expat2.py:46 | Right stripping returns a prefix of the input. Everything it removes is whitespace, and the result does not end with whitespace. |
| `Expat2.Xml2Obj.constructor` | other/expat2.py:26-29 | A new builder has an empty forest, an empty stack and the given root name, and satisfies the stack invariant. |
| `Expat2.Xml2Obj.StartElement` | other/expat2.py:30-39 | With no element open, a start tag other than the root name changes nothing. Otherwise a fresh element is pushed. It becomes the open element's last child, or the last root element when none was open. The invariant is kept, including depth = accepted starts minus effective ends. |
| `Expat2.Xml2Obj.EndElement` | other/expat2.py:40-42 | An end tag pops exactly one element when one is open, and changes nothing otherwise, so the stack never underflows. |
| `Expat2.Xml2Obj.CharacterData` | other/expat2.py:43-49 | Data that is not all whitespace is appended, unstripped, to the open element's character data only. With no open element or blank data, nothing changes. |
| `Expat2.Xml2Obj.Replay` | other/expat2.py:50-57 | Over any event sequence, the stack invariant holds and the depth grows by at most one per start event. Without a start tag of the root name, nothing is kept. |

## Left out

- PromoteMemToReg and the dominator-tree recomputation (Pass/LoopUnrollAggressivePass.cpp:405-425) are left out. The model's final function is the flattened, unrolled one, before promotion back to SSA.
- `DemotePHIToStack` is an LLVM utility whose code is not part of this model. It is modelled only by its effect on the phi itself, which becomes a reload. The stack slot, the stores in the predecessors and the operand rewiring are not modelled.
- `CloneBasicBlock` and `RemapInstruction` are modelled as copying a block's instruction kinds. Value identities and the def-use remapping are not modelled, because the abstract IR has no operands beyond the exit test.
- The guard clones in the model keep the instructions they were cloned from. Their terminator is replaced as in the source.
- Block order is not modelled. The model appends the split-off block at the end of the sequence, while `SplitBlock` inserts it after the preheader. Block ids are indices, so this affects layout only, not control flow.
- Induction-variable width: the model counter is unbounded, so the wrap-around at the bound's integer width is not modelled. In the source, a bound of 0, or a bound below the count after the rewrite, makes the loop run until the counter wraps around to the bound, instead of never exiting.
- UnrollSemantics assumes the induction variable starts at 0, as after induction-variable canonicalisation. The pass does not check this.
- `UnrollSemantics.AcceptedIsCountedLoop` assumes the compared `add` increments the header's induction variable, exactly once per iteration (one increment in the header). The pass checks only that operand 0 of the compare is an `add` of the constant 1 (Pass/LoopUnrollAggressivePass.cpp:235-240, 279-284). It does not check what is added to, or where the `add` sits. A loop the pass accepts without such an increment is outside the trip-count lemmas.
- Statistics output, `DEBUG` and trace dumps, `getAnalysisUsage` and pass registration are left out, because they have no effect on the transformed function.
- `CodeMetrics::analyzeBasicBlock` and the target cost model are left out. Their results (size, inline candidates, non-duplicatable flag) are parameters (`Metrics`).
- Command-line parsing is left out. The option values are a parameter (`Options`). The constructor's third argument is unused by the source and is not modelled.
- The bitmask guard (`urem` rewritten to `and` for power-of-two factors) is not in this source file. It is not modelled.
- `Element.getData` is a plain read of the `cdata` field, which the model exposes directly.
- `Xml2Obj.Parse` and the `__main__` block are left out, because they do file I/O and call the expat C parser. `Replay` drives the handlers from an explicit event sequence instead.
- Python 2 `.encode()` is not modelled. Names and data are strings, and `rootname` is compared with the tag name directly.
- `Expat2.IsSpace`: `str.strip()` is modelled with the six ASCII whitespace characters. Other Unicode whitespace that `unicode.strip()` also removes is not treated as whitespace.

## Findings

| source | as written | input that shows it | evidently intended | confidence | as-written member | corrected member |
|---|---|---|---|---|---|---|
| Pass/LoopUnrollAggressivePass.cpp:345-367 | Each guard clone's branch is replaced by an unconditional branch toward the body entry, so no guard clone tests for the exit. | A counted loop with `upper = 2` and unroll count 4: the original loop runs 2 iterations. After the rewrite, neither the guard clones nor the header keep a test: lines 362-363 and 390-391 replace their branches. Case 2 runs two guard clones, then the header and the three body clones. The first exit test, in the last body clone, sees the counter at 6 (`upper + count`), and later tests see `upper + k*count`. So in the model the loop never exits; in the source it runs until the counter wraps around to the bound. | The rewrite keeps the iteration count for every trip count, including trip counts below the factor. Guard clone 1, which enters the body, keeps the header's exit test so that short trips leave through it. | not executed | `UnrollSemantics.UnrolledMissesShortTrips` | `UnrollSemantics.FixedTripCount` |
