# Verified models of the compiler's middle and back end

This project models, in Dafny, the graph, dataflow and rewriting algorithms of the GPU
compiler in `codegen/` and of the library in `coral-reef-stubs/`, and proves what they are
for. Every loop that repeats until nothing changes is proved to end; every rewriting pass is
proved to keep the meaning of the program; every analysis is proved to agree with a
definition in terms of paths.

| files | what they model |
|---|---|
| `Words`, `Registers`, `CopyGraph`, `CopyArms`, `ParCopies`, `SwapLowering` | parallel copies lowered to copies and swaps, swaps lowered to logic |
| `Cfg`, `Dominators` | reverse post-order and the Cooper-Harvey-Kennedy dominators |
| `Dataflow`, `BitSets` | the fixed-point solvers and the bit vectors |
| `Programs`, `SimpleLiveness`, `NextUse`, `Pressure` | liveness, next-use distances, register pressure |
| `DepGraph`, `Dependences`, `ListSchedule`, `Scheduler`, `GuardOrder` | the post-allocation list scheduler |
| `UnionFind`, `SsaForm`, `RepairSsa`, `DefCounts`, `PhiDropping`, `RedundantPhis` | union-find and SSA repair |
| `PhiRegions`, `CircularPhis`, `RepairFailures` | when the repair fails at a phi with no source but itself |
| `JumpThread`, `JumpTargets`, `DeadCode` | jump threading and what it leaves, dead code |
| `SsaRuns`, `TablePasses`, `LopTables`, `LopFolding`, `PrmtFolding` | logic and permutation folding over whole functions, and the argument both rest on |
| `Basics` | optional values, results and shared notions |

Conventions. Machine words and look-up tables are sets of bits. Register and value
contents, memory, latencies, conditions and the meaning of instructions are parameters, so
each theorem holds for all of them. Iteration over hash maps and sets picks elements in any
order; binary heaps are sets or multisets from which the greatest (or least) element is
taken. Integers are unbounded except where wrapping is the point (`BitSets`). Source
assertions and `expect`s on the modelled paths are proved never to fail unless listed below.

Four findings are stated as lemmas.

* Guards. The scheduler records a guard as a read but adds no edge from the guarded
  instruction to a later write of the guard's register. `GuardOrder.GuardOverwritten` shows a
  block of two instructions that comes out the other way round under some latencies and then
  computes something else. `GuardOrder.UnprotectedReorders` and `GuardOrder.ProtectedKeepsOrder`
  say for which blocks that can happen; both speak of every result that the scheduler can give,
  and `Scheduler.SchedBuffer` gives one for every block and all latencies.
* Jump threading. The comment in `jump_thread` says that no replacement is ever a branch to a
  trivial block. `JumpTargets.TurnedBack` is a function without loops for which one is, since its
  blocks are not laid out in the order control takes; one reverse pass is then not enough.
  `JumpTargets.NoneTrivialIff` says when the comment is right and `JumpTargets.TargetsLeft` which
  branches are left in general.
* Alignment. `find_aligned_unset_range` computes its remainder with a wrapping subtraction.
  `BitSets.SearchMisaligns` is an input on which it returns a misaligned position, and
  `BitSets.SearchRightExactly` says exactly when it is right; for powers of two it always is.
* SSA repair. The documentation asks that every path from the entry to a use has a definition;
  `RepairFailures.StrayLoopFails` is a function that meets this and for which the repair stops at
  its expectation "Circular SSA def", because of a use that cannot be reached.
  `RepairFailures.EntryLoopFails` is one in which every block can be reached, the use undefined on
  some path. The model demands neither: `RedundantPhis.RepairFunction` returns an error where the
  source returns one or stops, its contract says exactly when that is, and every result is right
  for all uses that are reached defined. The exact condition speaks of regions of blocks that get
  a variable only from each other without defining it (`PhiRegions`).

Where a comment and the code disagree the model follows the code: the comment in `rewrite_cfg`
says that the builder removes dead blocks; the builder keeps every block it is given, and so
does the model.

How values run. `SsaRuns` and `SsaForm` run a function block by block along any path of its
graph. Instructions that a pass does not look into, phis among them, write whatever a parameter
says, the same in the old and the new function; since all values agree before each of them, that
covers every instruction whose results depend on values and on what is outside the function.

## Model

| member | source | states |
|---|---|---|
| `CopyGraphs.CopyGraph.AddEdge` | crates/coral-reef/src/codegen/lower_par_copies.rs:52-60 | Adding a source edge keeps in-degree at most one and every read counter equal to the number of readers |
| `CopyGraphs.CopyGraph.DelEdge` | crates/coral-reef/src/codegen/lower_par_copies.rs:62-67 | Deleting an edge keeps the counters exact and answers whether the source has no reader left |
| `CopyGraphs.AllReadMeansOnlyCycles` | crates/coral-reef/src/codegen/lower_par_copies.rs:177-201 | The informal proof in the source: if every node with a source is read, the edges form disjoint cycles |
| `CopyGraphs.EveryEdgeIsOnACycle` | crates/coral-reef/src/codegen/lower_par_copies.rs:177-201 | In such a graph following sources from any node with an edge comes back to it |
| `CopyGraphs.BypassShortens` | crates/coral-reef/src/codegen/lower_par_copies.rs:213-231 | Cutting the next node out of a cycle of length m leaves a cycle of length m - 1 |
| `ParCopies.BuildGraph` | crates/coral-reef/src/codegen/lower_par_copies.rs:104-148 | The graph has an edge exactly where a destination reads another register or value, with each destination at its own index |
| `CopyArms.ArmsSpare` | crates/coral-reef/src/codegen/lower_par_copies.rs:70-78 | A copy that needs a temporary has no arm, and into memory those are all that have none |
| `ParCopies.ReadyPhase` | crates/coral-reef/src/codegen/lower_par_copies.rs:150-175 | Copies made from the ready stack keep every pending value in place; what is left are only cycles |
| `ParCopies.BreakBySwaps` | crates/coral-reef/src/codegen/lower_par_copies.rs:212-231 | A cycle of m registers is resolved by exactly m - 1 swaps, each of the next two registers round the cycle, all pending values kept |
| `ParCopies.BreakByTemp` | crates/coral-reef/src/codegen/lower_par_copies.rs:232-266 | A cycle of m registers is resolved by m + 1 copies through the temporary, or 2m where each move needs a second temporary: the first saves a register, each next gives one the next one's value, the last restores the saved one |
| `ParCopies.BreakCycle` | crates/coral-reef/src/codegen/lower_par_copies.rs:208-266 | One cycle is resolved by whichever means its file allows, in exactly as many instructions as that takes, and no other edge is touched; the new instructions pass exactly when swaps stay in one file, or each copy has an arm or goes through the second temporary; it fails exactly when the file is memory or barriers and the temporary is missing or too small |
| `ParCopies.CyclePhase` | crates/coral-reef/src/codegen/lower_par_copies.rs:202-267 | No cycle is left, and no lookup of a cycle node's source can fail |
| `ParCopies.SingleFileFits` | crates/coral-reef/src/codegen/lower_par_copies.rs:99-270 | With every cycle inside one register file nothing but the moves by themselves decides whether all passes |
| `ParCopies.LowerParCopy` | crates/coral-reef/src/codegen/lower_par_copies.rs:99-270 | For every machine state the emitted copies and swaps give each destination the value its source held before, and change nothing else but the temporary; how many there are is exact; in them memory is written from general-purpose registers only and no barrier register from another if and only if the cycles allow it, and every copy has an arm in the later lowering and every swap one file if and only if that holds of each move and cycle by itself; it fails if and only if a move off every cycle, or the first move of a cycle, lacks the temporary it needs, and then a move into memory or a barrier register is there and the temporary is missing or too small |
| `SwapLowering.LowerSwapCorrect` | crates/coral-reef/src/codegen/lower_copy_swap.rs:312-356 | The exclusive-or triple, and the two-destination predicate operation, do what the swap does, also for a register swapped with itself |
| `SwapLowering.LowerSwapsCorrect` | crates/coral-reef/src/codegen/lower_copy_swap.rs:312-356 | Expanding every swap of a sequence keeps the final state of every run |
| `SwapLowering.NoSwapsLeft` | crates/coral-reef/src/codegen/lower_copy_swap.rs:312-356 | No swap is left after the expansion |
| `SwapLowering.LowerSwapShape` | crates/coral-reef/src/codegen/lower_copy_swap.rs:312-356 | A swap of registers of one file becomes nothing for a register with itself, one operation on predicates where the target has it, and exactly three exclusive-ors otherwise |
| `SwapLowering.LowerSwapsEncodable` | crates/coral-reef/src/codegen/lower_copy_swap.rs:25-356 | Code whose copies have arms and whose swaps stay in one file expands to code the encoder takes |
| `SwapLowering.LowerToLogic` | crates/coral-reef/src/codegen/lower_copy_swap.rs:25-356 | A parallel copy lowered and then expanded still moves every value and changes nothing else but the temporary, and the encoder takes all of it: no swap, no copy without an arm, a predicate operation on predicates and from sm 70 on only, exclusive-ors inside one file; it fails if and only if a temporary is lacking, or a move or cycle by itself does not pass |
| `Cfgs.RpoDfs` | crates/coral-reef-stubs/src/cfg/traverse.rs:21-30 | The search appends exactly the newly reached nodes, each once, each before a node with an edge to it, and terminates |
| `Cfgs.ReversePostOrder` | crates/coral-reef-stubs/src/cfg/traverse.rs:9-19 | The order holds exactly the reachable blocks, each once, the entry first, every other block after one of its predecessors; an edge from a later block to an earlier one is there only if the earlier one reaches the later |
| `Cfgs.AcyclicInOrder` | crates/coral-reef-stubs/src/cfg/traverse.rs:9-30 | Where no path comes back to its start the order is topological: every edge leads from an earlier block to a later one |
| `Dominators.Intersect` | crates/coral-reef-stubs/src/cfg/dom.rs:195-211 | The two fingers meet, and the chain of the meeting point is the intersection of the two chains |
| `Dominators.NewIdom` | crates/coral-reef-stubs/src/cfg/dom.rs:169-186 | Folding the known predecessors gives a node whose chain is what all of them share |
| `Dominators.Sweep` | crates/coral-reef-stubs/src/cfg/dom.rs:165-190 | One pass moves parents only up the tree, keeps every true dominator on every chain, and shrinks a rank when it changes anything |
| `Dominators.ComputeDominators` | crates/coral-reef-stubs/src/cfg/dom.rs:149-193 | The iteration ends, without a bound on the number of passes, at a fixed point of the equations |
| `Dominators.ChainIsDominators` | crates/coral-reef-stubs/src/cfg/dom.rs:149-193 | At the fixed point the chain of a block is exactly the set of blocks on every path to it |
| `Dominators.ComputeDomAnalysis` | crates/coral-reef-stubs/src/cfg/dom.rs:123-146 | For any graph, empty ones too: unreachable blocks have no parent, the entry has itself, every other block its immediate dominator |
| `Dominators.ParentIsIdom` | crates/coral-reef-stubs/src/cfg/dom.rs:107-109 | The parent of a reachable block is its immediate dominator: it dominates the block, and every other dominator of the block dominates it |
| `Dominators.DomPathReaches` | crates/coral-reef-stubs/src/cfg/dom.rs:213-222 | The walk up the parents finds the target exactly when it lies on the chain |
| `Dominators.DominatesQuery` | crates/coral-reef-stubs/src/cfg/dom.rs:70-83 | For a reachable block the query is true exactly when every path from the entry goes through the other block; otherwise only for the block itself |
| `Dominators.DetectBackEdges` | crates/coral-reef-stubs/src/cfg/dom.rs:224-237 | A loop is reported exactly when some edge leads to a block that dominates its source |
| `Dataflow.Solve` | crates/coral-reef-stubs/src/dataflow.rs:203-289 | The changed-flag loop ends at the least solution on the blocks of the order, bottom elsewhere |
| `Dataflow.SolveForward` | crates/coral-reef-stubs/src/dataflow.rs:203-247 | For every semilattice of finite height and monotone transfer: the equations hold at every reachable block, the result is the least solution, unreachable blocks stay at bottom |
| `Dataflow.SolveBackward` | crates/coral-reef-stubs/src/dataflow.rs:250-289 | The same for successors |
| `BitSets.BitSet.Insert` | crates/coral-reef-stubs/src/bitset.rs:80-90 | Insertion adds exactly one member and grows the word vector only as far as needed |
| `BitSets.BitSet.Union` | crates/coral-reef-stubs/src/bitset.rs:135-143 | Members of either set; the vector has the length of the longer one |
| `BitSets.BitSet.Sub` | crates/coral-reef-stubs/src/bitset.rs:260-278 | Members of the left set only; trailing zero words are kept |
| `BitSets.FindAlignedUnsetRange` | crates/coral-reef-stubs/src/bitset.rs:201-234 | The least aligned, fully unset position within capacity at or after the start, and none exactly when there is none, whenever alignment is judged rightly from the start on; otherwise still an unset position |
| `BitSets.UpAligns` | crates/coral-reef-stubs/src/bitset.rs:213-216 | The next candidate is the first aligned position if and only if nothing wraps or the modulus divides the word |
| `BitSets.SearchRightExactly` | crates/coral-reef-stubs/src/bitset.rs:192-234 | The search keeps the promise of its documentation for every set if and only if the start is not below the offset or the modulus divides the word |
| `BitSets.SearchIsWrong` | crates/coral-reef-stubs/src/bitset.rs:213-232 | Otherwise it returns a misaligned position whenever the first run it looks at is unset |
| `BitSets.SearchMisaligns` | crates/coral-reef-stubs/src/bitset.rs:201-234 | The failing input: an empty set, start 0, one bit, multiples of three with offset one, gives position 0 |
| `BitSets.WrappedRemainder` | crates/coral-reef-stubs/src/bitset.rs:213-216 | The wrapped subtraction gives the true remainder if and only if the position is not below the offset or the modulus divides the word |
| `BitSets.PowersOfTwoAreSafe` | crates/coral-reef-stubs/src/bitset.rs:213-216 | Power-of-two moduli always do |
| `Programs.LiveInCases` | crates/coral-reef/src/codegen/liveness.rs:317-334 | Path liveness into a block is an exposed use or liveness out past no definition |
| `SimpleLiveness.LiveProblemValid` | crates/coral-reef/src/codegen/liveness.rs:317-338 | Word vectors with structural equality form a semilattice of finite height with a monotone transfer, so trailing zero words cannot make the loop run for ever |
| `SimpleLiveness.ScanBlock` | crates/coral-reef/src/codegen/liveness.rs:294-308 | The sets of a block hold exactly its uses and definitions and the last use of every value |
| `SimpleLiveness.ForFunction` | crates/coral-reef/src/codegen/liveness.rs:288-346 | Live-in and live-out of every reachable block are exactly the values with a path to a use and no definition between |
| `Pressure.LiveSet.Insert` | crates/coral-reef/src/codegen/liveness.rs:35-42 | The per-file counters stay equal to the per-file sizes of the set |
| `Pressure.LiveSet.Remove` | crates/coral-reef/src/codegen/liveness.rs:48-55 | The per-file counters stay equal to the per-file sizes of the set |
| `Pressure.LiveSet.InsertInstrTopDown` | crates/coral-reef/src/codegen/liveness.rs:57-105 | The set after the step, and the larger of the two counts reached on the way |
| `Pressure.StepIsExact` | crates/coral-reef/src/codegen/liveness.rs:57-105 | Stepping over an instruction takes the values live before it to exactly those live after it |
| `Pressure.QueryIsPointLive` | crates/coral-reef/src/codegen/liveness.rs:262-271 | Past a value's last definition the block query answers liveness at the point exactly |
| `Pressure.BackEdgeSeed` | crates/coral-reef/src/codegen/liveness.rs:391-396 | Loop headers start from exactly the values live into them |
| `Pressure.ForwardSeed` | crates/coral-reef/src/codegen/liveness.rs:397-408 | Other blocks start from exactly the values live into them |
| `Pressure.MaxBoundsPoints` | crates/coral-reef/src/codegen/liveness.rs:383-430 | The maximum bounds the live values at every point, also in empty blocks |
| `Pressure.CalcMaxLiveBackEdgeAware` | crates/coral-reef/src/codegen/liveness.rs:383-430 | The result is the largest need of any instruction in each file, attained by one, and bounds the live values at every point of every block |
| `NextUse.AddSuccessorUseLowers` | crates/coral-reef/src/codegen/liveness.rs:455-475 | Adding a successor use lowers the one recorded distance beyond the block and reports whether it did; the list stays sorted with one such entry |
| `NextUse.ScanBlockUses` | crates/coral-reef/src/codegen/liveness.rs:631-650 | Use lists hold exactly the uses of a value in the block, in order, for the wanted files only |
| `NextUse.Transfer` | crates/coral-reef/src/codegen/liveness.rs:584-598 | All distances coming from the successors are taken in, and the flag tells whether anything changed |
| `NextUse.JoinSuccessors` | crates/coral-reef/src/codegen/liveness.rs:600-616 | For every value live into a successor the smallest first use, and nothing else |
| `NextUse.NoPathIsShorter` | crates/coral-reef-stubs/src/dataflow.rs:132-152 | At the fixed point no path to a use is shorter than the recorded distance |
| `NextUse.Solve` | crates/coral-reef-stubs/src/dataflow.rs:132-152 | The loop ends although distances have no bound known in advance: values are added, then distances shrink |
| `NextUse.ForFunction` | crates/coral-reef/src/codegen/liveness.rs:629-668 | Every reachable block has complete use lists: its own uses, then the shortest use beyond it |
| `NextUse.NextUseIsLeast` | crates/coral-reef/src/codegen/liveness.rs:536-547 | The query gives the smallest distance, over the block and all paths beyond it, of a use at or after the position, and none exactly when there is none |
| `NextUse.FirstUseIsLeast` | crates/coral-reef/src/codegen/liveness.rs:523-529 | For a value the block does not define, the minimum over all paths of the instruction count to the next use |
| `NextUse.AgreesWithSimple` | crates/coral-reef/src/codegen/liveness.rs:550-582 | Live-in, live-out and live-after-position agree with the bit-set analysis on reachable blocks |
| `DepGraphs.DepGraph.Reverse` | crates/coral-reef/src/codegen/opt_instr_sched_common.rs:47-59 | Every edge is turned round with its latency, and each node has as many incoming edges as it had outgoing ones |
| `DepGraphs.CalcStatistics` | crates/coral-reef/src/codegen/opt_instr_sched_common.rs:365-390 | The label of a node is the total latency of the longest path from it; the ready list holds exactly the nodes without edges, last first |
| `Dependences.TracksStep` | crates/coral-reef/src/codegen/opt_instr_sched_postpass.rs:110-119 | Scanning backwards the tracker knows, for every register, its first write and exactly the reads up to it |
| `Dependences.NodeEdgesOk` | crates/coral-reef/src/codegen/opt_instr_sched_postpass.rs:50-108 | Every read and every write up to the next write of a register gets an edge whose latency is the larger of the table's and the variable latency, or of the table's and two under a scoreboard, as do source reads and the next write; consecutive memory operations and everything next to a barrier get one; every edge joins two dependent instructions and has such a latency, or none |
| `Dependences.GenerateDepGraph` | crates/coral-reef/src/codegen/opt_instr_sched_postpass.rs:36-137 | The whole graph has these edges; each instruction needs to the end of the block the worst latency of some destination, or the variable latency and the execution of the last instruction, whichever is the largest |
| `Dependences.DependentsInOrder` | crates/coral-reef/src/codegen/opt_instr_sched_postpass.rs:36-137 | Any order that respects the edges keeps every dependent pair in order, however many instructions lie between |
| `ListSchedule.Release` | crates/coral-reef/src/codegen/opt_instr_sched_postpass.rs:179-187 | Releasing the dependants of an instruction counts each edge once and frees exactly the nodes whose last edge it was |
| `ListSchedule.EmptyMeansDone` | crates/coral-reef/src/codegen/opt_instr_sched_postpass.rs:159-161 | When both heaps are empty everything has been placed |
| `ListSchedule.GenerateOrder` | crates/coral-reef/src/codegen/opt_instr_sched_postpass.rs:139-191 | The order is a permutation, each instruction after all it waits for and ending no earlier than the end of any of these plus the edge's latency; the one taken is always ready, and none of the ready ones is further from the end of the block, nor as far with a greater index; time passes only while none is ready, and the cycle count is the end of the last one |
| `ListSchedule.ScheduleUnique` | crates/coral-reef/src/codegen/opt_instr_sched_postpass.rs:139-191 | Dependences and labels leave one such order, with one time for each instruction |
| `Scheduler.EndBoundsPaths` | crates/coral-reef/src/codegen/opt_instr_sched_postpass.rs:139-191 | No path of latencies is longer than the time its first instruction ends |
| `Scheduler.SchedBuffer` | crates/coral-reef/src/codegen/opt_instr_sched_postpass.rs:193-209 | The result is a permutation of the block that keeps all dependences, meets every latency of the tables and is made greedily by the longest-path labels; the cycle count is when the last instruction ends, and no dependence path is longer |
| `Scheduler.ScheduleComputesSame` | crates/coral-reef/src/codegen/opt_instr_sched_postpass.rs:193-209 | For every meaning of the instructions the scheduled block ends with the same registers and memory, if guards are protected, as they are when there are none |
| `Scheduler.OrderKeptIffProtected` | crates/coral-reef/src/codegen/opt_instr_sched_postpass.rs:99-116 | The edges force all interfering pairs to keep their order if and only if every later write of a guard's register is reached from the guarded instruction through dependences |
| `GuardOrder.UnprotectedReorders` | crates/coral-reef/src/codegen/opt_instr_sched_postpass.rs:99-209 | For every block in which some later write of a guard's register is not so reached, there are latencies under which the scheduler always moves such a write before the guarded instruction |
| `GuardOrder.ProtectedKeepsOrder` | crates/coral-reef/src/codegen/opt_instr_sched_postpass.rs:99-209 | For every other block the scheduler keeps all interfering pairs in order, whatever the latencies |
| `GuardOrder.GuardOverwritten` | crates/coral-reef/src/codegen/opt_instr_sched_postpass.rs:99-116 | The failing input: a guarded instruction followed by a write of its guard comes out the other way round under suitable latencies, and computes something else |
| `UnionFinds.UnionFind.FindRoot` | crates/coral-reef/src/codegen/union_find.rs:44-64 | Ends at the root, changes no representative by halving paths, and terminates |
| `UnionFinds.UnionFind.Find` | crates/coral-reef/src/codegen/union_find.rs:67-75 | Returns the representative; no representative changes |
| `UnionFinds.UnionFind.Union` | crates/coral-reef/src/codegen/union_find.rs:91-117 | The whole class of the second argument gets the representative of the first; all other representatives stay |
| `UnionFinds.UnionFind.IsEmpty` | crates/coral-reef/src/codegen/union_find.rs:120-122 | True exactly when every value represents itself |
| `UnionFinds.HeightIsLogarithmic` | crates/coral-reef/src/codegen/union_find.rs:103-116 | A climb of d steps ends at a root whose recorded size is the number of nodes under it, at least 2 to the d |
| `JumpThread.SameBehaviour` | crates/coral-reef/src/codegen/opt_jump_thread.rs:21-161 | If the old function stops, the new one stops in the same way after the same instructions; all the new one does the old one does; and the new one is never behind |
| `JumpThread.Func.RedirectBranches` | crates/coral-reef/src/codegen/opt_jump_thread.rs:47-98 | One reverse pass replaces every branch that has a replacement by the one its target climbs to, and no other instruction |
| `JumpThread.Func.JumpThread` | crates/coral-reef/src/codegen/opt_jump_thread.rs:21-107 | Every transfer of the rewritten function is the old one with silent blocks skipped; exactly the branches to later trivial blocks are replaced, each by where the climb through trivial blocks ends, conditional ones by branches only; progress is reported exactly when some branch is replaced, and without it nothing changes |
| `JumpThread.Func.RewriteCfg` | crates/coral-reef/src/codegen/opt_jump_thread.rs:109-144 | An edge joins two blocks exactly when some truth of the conditions passes control between them, both ends record it, and falling through comes first |
| `JumpThread.Func.OptFallThrough` | crates/coral-reef/src/codegen/opt_jump_thread.rs:147-161 | No block ends in a branch to the next one; only such branches go, and all transfers stay |
| `JumpThread.Func.OptJumpThread` | crates/coral-reef/src/codegen/opt_jump_thread.rs:21-170 | The whole pass behaves like the old function; if some branch can be replaced, all that can are, no branch leads to the next block and the edges are the control transfers, otherwise nothing at all changes |
| `JumpTargets.TargetsLeft` | crates/coral-reef/src/codegen/opt_jump_thread.rs:42-74 | After the pass a block ends in a branch to a trivial block further on if and only if that is not the next block and either the climb through trivial blocks turned back to it, or the branch is conditional and an exit is all that the trivial block leads to |
| `JumpTargets.NoneTrivialIff` | crates/coral-reef/src/codegen/opt_jump_thread.rs:42-46 | No replacement is a branch to a trivial block, as the comment on the second invariant says, if and only if no trivial block branches to itself or to a trivial block before it |
| `JumpTargets.OnlyExitsLeft` | crates/coral-reef/src/codegen/opt_jump_thread.rs:22-34 | Without such blocks only conditional branches that lead to an exit are left |
| `JumpTargets.TurnedBack` | crates/coral-reef/src/codegen/opt_jump_thread.rs:42-74 | The input on which that invariant fails: five blocks of which the first still branches to a trivial block when the pass is done |
| `LopTables.UsedIs` | crates/coral-reef/src/codegen/ir/types/cmp.rs:214-218 | The bit test for a used source is true exactly when changing that source can change the answer |
| `LopTables.FixIs` | crates/coral-reef/src/codegen/ir/types/cmp.rs:220-230 | Fixing a source gives the table with that source constant |
| `LopTables.InvertIs` | crates/coral-reef/src/codegen/ir/types/cmp.rs:232-238 | Inverting a source gives the table with that source negated |
| `LopTables.SubstIs` | crates/coral-reef/src/codegen/ir/types/cmp.rs:202-206 | A table computed from the masks with one replaced is the composition of the two tables |
| `LopTables.DedupSrcs` | crates/coral-reef/src/codegen/opt_lop.rs:70-84 | The table answers what the old one does with only the first of equal sources looked at; the results are kept |
| `LopTables.CleanSrcs` | crates/coral-reef/src/codegen/opt_lop.rs:181-192 | The tables answer what the old ones do with constant sources fixed; a source is replaced by the filler exactly when no operation looks at it any more, and no operation uses a constant source afterwards; the results are kept |
| `LopTables.ConstantIff` | crates/coral-reef/src/codegen/opt_lop.rs:21-27 | A source counts as constant exactly when it is the same truth in every lane of every state |
| `LopTables.AssignSlots` | crates/coral-reef/src/codegen/opt_lop.rs:109-143 | Every used source of the inner operation finds an equal slot or a free one, and no free slot is given out twice; it fails if and only if the used sources not yet there outnumber the free slots |
| `LopTables.SubstitutionIs` | crates/coral-reef/src/codegen/opt_lop.rs:86-176 | What a substitution leaves: the tables are the composition with the inner one, its sources are in their slots and all others stay |
| `LopFolding.UseCounts` | crates/coral-reef/src/codegen/opt_lop.rs:30-51 | The count of each value is the number of its uses in the function |
| `LopFolding.TryPropToSrc` | crates/coral-reef/src/codegen/opt_lop.rs:86-176 | Substituting definitions keeps every lane of all results wherever the recorded definitions that dominate the place hold, and goes on until it is stuck: the source is no recorded value, or its operation uses several sources and the value has several uses, or the sources still missing outnumber the free slots; it ends because each step moves to a definition of lower rank |
| `LopFolding.AddLop` | crates/coral-reef/src/codegen/opt_lop.rs:54-68 | The assertion on constant sources cannot fail |
| `LopFolding.OptLop3` | crates/coral-reef/src/codegen/opt_lop.rs:178-202 | The sources are merged and cleaned and each of the three is propagated into until stuck; the rewritten instruction gives its destination the same value wherever the recorded definitions that dominate it hold, and its table and sources are the recorded entry |
| `LopFolding.OptPLop3` | crates/coral-reef/src/codegen/opt_lop.rs:204-238 | The same for both destinations, with negations moved into the tables |
| `LopFolding.OptLop` | crates/coral-reef/src/codegen/opt_lop.rs:240-250 | One table serves all blocks: every logic operation of the result is what the old one becomes with all operations recorded before it, each destination's entry is recorded, and before every instruction of every run, loops included and whatever other instructions write, all lanes of all values are the same in the old and the new function |
| `LopFolding.FoldingKeepsValues` | crates/coral-reef/src/codegen/opt_lop.rs:240-250 | Whenever control comes to a logic operation, each of its destinations is given the same value in every lane as before the pass |
| `SsaRuns.SourceNotRedefined` | crates/coral-reef/src/codegen/opt_lop.rs:240-250 | Why a recorded definition is never stale where it is used: a source whose definition dominates the recorded one is not redefined between it and a use that it dominates |
| `SsaRuns.RunsAgree` | crates/coral-reef/src/codegen/opt_lop.rs:240-250 | If every rewritten instruction agrees wherever the entries that dominate it hold, the old and the new function agree along every run, with the invariant that all entries that dominate the current point hold there |
| `TablePasses.RankGrows` | crates/coral-reef/src/codegen/opt_lop.rs:86-176 | A definition that dominates another has a lower rank, however the blocks are laid out, so following definitions ends |
| `TablePasses.KeptRunsSame` | crates/coral-reef/src/codegen/opt_lop.rs:240-250 | The same for any pass that fills one table while it goes over all blocks |
| `PrmtFolding.TryOptPrmtSrc` | crates/coral-reef/src/codegen/opt_prmt.rs:128-170 | Looking through one source keeps all four result bytes, sign replication included, and moves to an earlier definition |
| `PrmtFolding.PrmtSrcs.TryAddSrc` | crates/coral-reef/src/codegen/opt_prmt.rs:26-41 | A source already gathered is found again, otherwise one of two slots is taken |
| `PrmtFolding.PrmtSrcs.TryAddImmU8` | crates/coral-reef/src/codegen/opt_prmt.rs:43-75 | Bytes are packed into one immediate at places that are still zero, never more than four |
| `PrmtFolding.PackReadsBack` | crates/coral-reef/src/codegen/opt_prmt.rs:174-240 | Every packed byte reads back as what was packed |
| `PrmtFolding.RepackedSame` | crates/coral-reef/src/codegen/opt_prmt.rs:174-240 | Looking through both sources at once keeps all four result bytes |
| `PrmtFolding.RepackedIff` | crates/coral-reef/src/codegen/opt_prmt.rs:174-240 | Repacking succeeds if and only if the bytes, looked through both sources, come from at most two different ones, all constants counted as one |
| `PrmtFolding.FixedIsFlat` | crates/coral-reef/src/codegen/opt_prmt.rs:228-240 | A permutation that repacking leaves alone takes no byte from a known permutation |
| `PrmtFolding.RepackedTwice` | crates/coral-reef/src/codegen/opt_prmt.rs:228-233 | Without inner permutations, repacking twice is repacking once |
| `PrmtFolding.RepackingEnds` | crates/coral-reef/src/codegen/opt_prmt.rs:251-255 | Each repetition lowers the depth of the sources or reaches a form that repacking leaves alone |
| `PrmtFolding.OptPrmt` | crates/coral-reef/src/codegen/opt_prmt.rs:242-258 | Each source is looked through until it is stuck, then both are repacked until they are stuck or nothing is left to look through; both loops end and the result bytes are kept |
| `PrmtFolding.OptPrmts` | crates/coral-reef/src/codegen/opt_prmt.rs:260-268 | Every permutation of the result is what the old one becomes with all known permutations recorded before it; before every instruction of every run all bytes of all values are the same in the old and the new function |
| `PrmtFolding.FoldingKeepsBytes` | crates/coral-reef/src/codegen/opt_prmt.rs:260-268 | Whenever control comes to a permutation, its destination is given the same four bytes as before the pass |
| `DeadCode.DeadCodePass.MarkInstr` | crates/coral-reef/src/codegen/opt_dce.rs:79-125 | Marking adds no more than any closed marking has, and once nothing new is found the instruction is closed and the other flag tells whether part of it is dead |
| `DeadCode.DeadCodePass.Run` | crates/coral-reef/src/codegen/opt_dce.rs:155-174 | The loop ends at the least marking closed under uses, phis and parallel copies, and what is left is exactly the marked part: each phi source, phi destination, copy and operation that it asks for, in order |
| `DeadCode.LeastIsNeeded` | crates/coral-reef/src/codegen/opt_dce.rs:79-125 | That marking holds exactly the values and phis that are needed, one by one back from an operation that cannot be eliminated |
| `DeadCode.EliminationKeepsRuns` | crates/coral-reef/src/codegen/opt_dce.rs:155-174 | The function the pass returns shows, from any start and for any number of blocks, the same reads of the instructions that cannot be eliminated and goes the same way |
| `DeadCode.InstrAgrees` | crates/coral-reef/src/codegen/opt_dce.rs:127-143 | What is left of an instruction does the same to everything marked and shows the same reads |
| `DeadCode.SameRuns` | crates/coral-reef/src/codegen/opt_dce.rs:155-174 | On every run the instructions that cannot be eliminated are the same, in the same order, and read the same values |
| `DeadCode.UsesKeepDefinitions` | crates/coral-reef/src/codegen/opt_dce.rs:127-143 | Every use left keeps each of its definitions, those with a constant-false guard apart |
| `DeadCode.PhisKeepSources` | crates/coral-reef/src/codegen/opt_dce.rs:127-143 | A phi destination that is left keeps all its sources |
| `RepairSsa.Repairer.ScanPreds` | crates/coral-reef/src/codegen/repair_ssa.rs:58-74 | Predecessors that do not know the variable are pushed; otherwise the comparison is exact |
| `RepairSsa.Repairer.Resolve` | crates/coral-reef/src/codegen/repair_ssa.rs:82-128 | The block gets the common name, a phi with all forward sources and its back edges announced, or an undefined value if it has no predecessors; at the entry that is the error, and then a variable really may be used undefined |
| `RepairSsa.Repairer.GetSsaOrPhi` | crates/coral-reef/src/codegen/repair_ssa.rs:28-134 | The search ends with the right name for the variable at the end of the block, or with the error; names already given never change |
| `RepairSsa.Repairer.RenameAll` | crates/coral-reef/src/codegen/repair_ssa.rs:214-252 | Every use takes the current name of its variable and every definition a name of its own |
| `RepairSsa.Repairer.FillBackEdges` | crates/coral-reef/src/codegen/repair_ssa.rs:254-284 | The loop ends with every phi source of every back edge filled in, though filling may place more phis |
| `RepairSsa.UndefinedIsNoticed` | crates/coral-reef/src/codegen/repair_ssa.rs:98-106 | Naming does not succeed when some path from the entry reaches a use of a renamed variable without a definition and nothing leads back to the entry |
| `PhiDropping.DropPhi` | crates/coral-reef/src/codegen/repair_ssa.rs:315-323 | Dropping a redundant phi and redirecting its name keeps the renaming consistent |
| `PhiRegions.CollapsesIffInseparable` | crates/coral-reef/src/codegen/repair_ssa.rs:286-327 | Blocks that get a variable only from each other collapse into one, by merging blocks all of whose predecessors are in their own group or one other, exactly when no grouping in which nothing more can be merged tells two of them apart |
| `CircularPhis.AllRootedAtFirst` | crates/coral-reef/src/codegen/repair_ssa.rs:28-134 | After the search, in every such region each block's name is that of a phi of the region that no such grouping tells from the block |
| `CircularPhis.AllRootedDrop` | crates/coral-reef/src/codegen/repair_ssa.rs:315-323 | Dropping a redundant phi keeps that |
| `CircularPhis.CircularCause` | crates/coral-reef/src/codegen/repair_ssa.rs:315-317 | A phi with no source but itself arises only in a region that collapses |
| `CircularPhis.NothingCircular` | crates/coral-reef/src/codegen/repair_ssa.rs:286-327 | Once no phi is redundant no region collapses, so one that does makes the expectation fail |
| `RedundantPhis.RemoveRedundant` | crates/coral-reef/src/codegen/repair_ssa.rs:286-327 | The repetition fails if and only if a renamed variable has a region without definitions that collapses; otherwise it ends with a consistent renaming under the recorded substitution, in which every phi left has two sources that stand for different names, neither the phi itself |
| `DefCounts.CountDefs` | crates/coral-reef/src/codegen/repair_ssa.rs:186-200 | Exactly the variables with two definitions are found |
| `RedundantPhis.RepairFunction` | crates/coral-reef/src/codegen/repair_ssa.rs:182-402 | For every function whose graph fits its code: a consistent renaming with every use and phi source resolved, exactly the variables with two definitions renamed; if there is a back edge no redundant phi is left, otherwise each phi has two different sources or stands before one of its predecessors; it fails if and only if a path from the entry reaches a use undefined and nothing leads back to the entry, or there is a back edge and a variable with two definitions has a region without definitions that collapses |
| `RepairFailures.DefinedUsesSucceed` | crates/coral-reef/src/codegen/repair_ssa.rs:165-174 | Neither happens when every use of such a variable can be reached and every path to it from the entry has a definition |
| `RepairFailures.LoneLoopFails` | crates/coral-reef/src/codegen/repair_ssa.rs:315-317 | The expectation fails for every block that follows only itself and wants such a variable without defining it, in a function with a back edge |
| `RepairFailures.StrayLoopFails` | crates/coral-reef/src/codegen/repair_ssa.rs:165-174 | A function of two blocks in which every path from the entry to a use has a definition, and the repair fails: an unreachable block that follows itself uses what the entry defines |
| `RepairFailures.EntryLoopFails` | crates/coral-reef/src/codegen/repair_ssa.rs:315-317 | The same for a block that can be reached: an entry that follows only itself and uses what is defined later |
| `RepairFailures.StrayWebSucceeds` | crates/coral-reef/src/codegen/repair_ssa.rs:286-327 | Three unreachable blocks that follow each other form a region that does not collapse, and the repair succeeds |
| `RedundantPhis.RepairReadsTheSame` | crates/coral-reef/src/codegen/repair_ssa.rs:165-174 | Along every run, whatever the definitions write, each use in the repaired code reads what the last definition of its old name wrote, if there has been one |
| `RedundantPhis.DefinedUsesReadTheSame` | crates/coral-reef/src/codegen/repair_ssa.rs:165-174 | That is every use when every path from the entry to a use has a definition |
| `RedundantPhis.RepairDefinesOnce` | crates/coral-reef/src/codegen/repair_ssa.rs:165-174 | Each name of the repaired code is defined once: by one definition, renamed or not, by one phi, or as one undefined value |
| `RedundantPhis.UsesAreDefined` | crates/coral-reef/src/codegen/repair_ssa.rs:214-252 | Every use of a renamed variable has a name that some definition, phi or undefined value of the repaired code has; all other uses stay |
| `RedundantPhis.PhisAreComplete` | crates/coral-reef/src/codegen/repair_ssa.rs:108-128 | Every phi of the repaired code is for a renamed variable that is live into its block, with a source for each predecessor and no others, each a defined name |
| `RedundantPhis.UndefsAreUnreached` | crates/coral-reef/src/codegen/repair_ssa.rs:98-106 | An undefined value stands only at the head of a block without predecessors that is not the entry and into which a renamed variable is live |
| `SsaForm.UsesReadTheSame` | crates/coral-reef/src/codegen/repair_ssa.rs:165-174 | Along every run of a consistently renamed function each use reads what the last definition of its old name wrote |

## Left out

- The 1000-pass assertion in `compute_dominators`: the loop is proved to end, with no bound on the number of passes.
- `loop_depth`, `loop_header_index`, depth-first numbering of the dominator tree, and the cache of the dominator analysis: the analysis is a function of a fixed graph.
- ParCopies.LowerParCopy: the debug assertion that a cycle resolved through the temporary stays in one register file is not made; such cycles are lowered as without it, and the contract says when later lowering has an arm for every copy.
- BitSets: `remove`, intersection, difference in place, subset test and the iterator would only add easy members; bit sets are values here, not updated in place.
- BitSets.FindAlignedUnsetRange: positions are unbounded, so a capacity close to the word size, where stepping up to the next candidate would wrap, is not modelled.
- The debug assertions of the pressure walk on register outputs, `interferes`, and the plain `calc_max_live` that misses back edges.
- NextUse: functions must define values before using them within a block, as SSA form does.
- Scheduler: barrier-file registers are not tracked by the source and are not part of the model's register lists; latency tables are parameters; weights of blocks and the sum over blocks are left out.
- Scheduler.ScheduleComputesSame: one direction; the other is stated as the order of interfering instructions (`GuardOrder.UnprotectedReorders`), because a reordered block may still compute the same by chance, and as a change of result for the smallest such block (`GuardOrder.GuardOverwritten`).
- GuardOrder.UnprotectedReorders: the latencies are those of a target with tables of any numbers; whether a real target has such ones is not part of this model.
- JumpThread: the branch kinds that the rewriting rejects (sync, break, continue) are left out; branches occur only at the end of a block.
- LopFolding and PrmtFolding: instructions carry no guard; sources are scalar and unmodified, except the negations of predicate operations; functions are in strict SSA form, in which each definition dominates the uses by the folded operations; in code that cannot be reached, where dominance says nothing, definitions are also asked to come first, since operations there that use each other could be substituted into each other for ever.
- PrmtFolding: permutations whose selector is not constant, or whose mode is not the index mode, are left alone as in the source and have no meaning attached.
- DeadCode: the debug annotation that replaces a killed instruction; which instructions can be eliminated is a parameter.
- RepairSsa: phis are kept per block with a source per predecessor; placing them as instructions, allocating phi identifiers, and the early exit when no variable has two definitions are left out. `fix_entry_live_in`, which prepares functions for the repair, is not part of this model.
- RedundantPhis.RepairFunction: an error is returned where the source returns an error or stops, with no message.
- `to_cssa.rs`, `opt_bar_prop.rs`, the rest of `lower_copy_swap.rs`, register allocation and spilling, the front ends, encoders, and all input and output.
