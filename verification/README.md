# A model of the alias analysis and the thread schedules

The analyser looks for use-after-free bugs in C code.  It computes what every field of every
abstract object can point to, follows objects that escape into memory and are fetched back, and
turns a candidate bug into a schedule of threads whose order constraints a solver then decides.
This project models the parts of it that keep state or search, and proves what they promise.

| file | what it models |
|---|---|
| `Cfg.dfy` | the control-flow graph; reachability around blockers, dominance and post-dominance, each proved equal to its meaning over paths |
| `ThreadSpec.dfy`, `Threads.dfy`, `ThreadRuns.dfy` | a thread: a vector of locations that is inserted into, probed and erased from in place; what any run of such calls keeps |
| `Traces.dfy` | the locations of a thread without its node objects, on which every insertion is decided |
| `Constraints.dfy`, `SchedSpec.dfy` | the partial-order constraint system, its solutions, and what a solution means for threads, critical regions, forks and checks |
| `Locksets.dfy` | how lock and unlock calls are filed and paired |
| `BuildFacts.dfy`, `Schedules.dfy` | the schedule builder, from the two threads of a bug to the finished constraint system, and the records and clause sets its promises are stated in |
| `EqvPaths.dfy`, `EqvPairs.dfy`, `EqvSearch.dfy` | escape/fetch paths, the pairs of objects they connect, and the cached search for all of them |
| `FieldSpec.dfy`, `FieldStore.dfy`, `ReachingDefs.dfy` | the flow-sensitive records of an object's fields, their activity, the index kept by their targets, and reaching definitions |
| `KillerPaths.dfy` | whether every way to the return follows a killer sequence |
| `Layout.dfy` | nested types and the description of every place inside one |
| `Forest.dfy`, `Embedding.dfy`, `BitOffsets.dfy` | the forest of embedded objects as a value, the objects themselves, and pointer arithmetic over them |
| `Hierarchy.dfy`, `GlobalEscape.dfy` | the walk up the hierarchy of an object, and the search for an escape to global memory |

State that the program changes in place is state here too: `Thread`, `ThreadSched`, `POConstraint`,
`EqvObjPair`, `AliasObject`, `Obj` (the same class, seen as a nest of objects), `PointerPointsTo` and
the searches with their stacks and caches are classes whose methods are proved against functions
on values, and the promises are proved about those.

Main results:

* **Schedules.**  A build never loses a node that a constraint or a lock region names, every failed
  pair insertion is undone exactly, and the clauses of a finished schedule are exactly those its
  threads, paths, checks, locks and child threads ask for: a numbering solves them if and only if it
  meets that order (`SolutionsAreExact`).  So every solution frees before it uses, takes each escape
  before its fetch and that before its use, keeps the regions of one lock cluster apart, puts the
  killers of a check behind it, and runs what a child thread held between its creation and its join
  (`SolutionsAreSensible`).  No complete schedule has dropped a killer that got between the node that
  frees and a check (`NoKillerInBetween`): such a killer is fatal (`TrappedIsFatal`).  When an event
  fits a thread is said by places alone, without the insertions (`SyncMeans`, `RegionMeans`,
  `KillerMeans`).
* **Field store.**  The index is the exact inverse of the records after any run over any objects, a
  strong update leaves no overridden foreign pointee active, and no entry sees what is private to
  another.  Whatever the control flow and the other entries, a load sees exactly its reaching
  definitions and the preset records that reach it if and only if each of those was visited before it
  and its record has not been lost (`Analyze`, `AnalyzeAll`).  None is lost for a load that is not
  caught in a loop with what matters to it, unless two stores of one pointee tangle (`SettledIsKept`,
  `UntangledMeans`); so on acyclic functions without tangles every load is right (`AcyclicIsOwed`).
* **Equivalence search.**  It ends on cyclic graphs, everything it returns or caches is derivable; a
  search that no limit cut short finds everything derivable (`WholeIsExact`), and then n rounds find
  exactly the objects at most n layers away (`WithinIsExact`).  No search is cut short on a graph in
  which no chain of hosts and containers repeats an object, a recursive type or, below the second step,
  a type (`TameHere`, `TameWithinIsExact`).  Trimming keeps a shortest path for each pair of a first
  escape and a last fetch (`TrimExtracts`, `SigMeans`).
* **Bit offsets.**  The description of a type has exactly the places its ways lead to, in their order
  (`DescIsComplete`, `DescIsOrdered`).  What a `bit2Field` ends in is decided by the forest before the
  call, and it succeeds whenever a way ends at the place aimed at (`EndingMeans`); a successful
  one moves the pointer by exactly the bits asked for, however many hosts it climbs and embedded
  objects it makes, if and only if no object of a wrong type lies on its way inwards (`Bit2Field`).
* **Killer paths, hierarchy walk, global escape.**  Each search answers exactly a question about paths
  or chains that is stated without the search (`KillerLocationsAreInevitable`, `ReportedIsComplete`,
  `CompleteMeans`, `EscapesMeans`), and puts its stack, and the thread it probes, back.

Where the code turns out to do something else than its comments say, the model follows the code and
the deviation is proved:

* As a class, `Thread` does not always undo an insertion by a removal: merging into a node that had no
  type and removing again drops it (`RollbackIff`).  `testLocInSeq` makes such nodes
  (`RollbackCanDropANode`), but only on free-standing threads; the threads of a schedule have none,
  so no build meets the case.
* `_mustKill` also rejects a killer that is the check itself, for which the constraint would have been
  skipped (`KillerBeforeCheck`).
* The lock clusters are the classes of `sameLockObjs` exactly when that is an equivalence (`ClusterLocks`).
* Deactivating an overridden record goes through the index of its target, and takes the record of another
  store of the same pointee down too, although nothing has overridden that store.  On a function
  without loops a load can miss a definition that way: `SharedPointeeIsLost` gives the program, and
  `UntangledMeans` says when it happens.
* `MAX_LOOP_CNT` is 1, so a loop is visited once, and a load in its header never sees what the body stores
  (`HeaderMissesTheBody`; `Kept` is the exact condition for all loads).
* With a `MAX_LOOP_CNT` of 2 or more, a store that is visited again could take its own record down
  (`StoredRecordIsActiveIff` gives the exact condition, `RepeatedStoreLosesItsRecord` a loop of which the
  last round ends without an active record).  With the limit as it is a block is visited once in each
  calling context, and this is a property of the update alone.
* A call through a pointer that may both lock and unlock is filed on both sides, and can be paired with
  itself (`IndirectCallIsBoth`).  Calls with one callee never are (`DirectIsOneSided`, `SitesAreApart`), and
  then no two recorded regions meet (`RegionsNeverMeet`).
* `matchPtoTy` resets a struct object to a flat array and leaves the embedded objects on file, whatever
  the type has at their fields now.  One that is not of the type found there is never replaced, because
  an occupied field is left alone, and a pointer that comes by leaves the object (`Bit2Field` gives the
  exact condition, `ResetMakesAMisfit` a run).
* `getPairedIndex` counts down with an unsigned index.  On a fetch without an escape early enough in
  front of it the index leaves the path (`GetPairedIndex` says when); on the paths the search builds it
  never does (`PairingIsAnInvolution`).

## Model

| member | source | states |
|---|---|---|
| `Cfg.ReachIffPath` | llvm_analysis/MainAnalysisPasses/Utils/src/CFGUtils.cpp:1397-1490 | the reachability question is answered yes exactly when some path leads there with no blocker in its interior |
| `Cfg.DomMeans` | llvm_analysis/MainAnalysisPasses/Utils/src/CFGUtils.cpp:1230-1335 | one location dominates another exactly when every path from the entry meets it, and the two differ if that is asked |
| `Cfg.PostDomMeans` | llvm_analysis/MainAnalysisPasses/Utils/src/CFGUtils.cpp:1143-1227 | one location post-dominates another exactly when every path to an exit meets it, and the two differ if that is asked |
| `ThreadSpec.InsertKeepsWellFormed` | llvm_analysis/MainAnalysisPasses/SoundyAliasAnalysis/include/ModuleState.h:205-347 | an insertion keeps a thread duplicate-free, and every earlier location able to reach every later one |
| `ThreadSpec.InsertPosition` | llvm_analysis/MainAnalysisPasses/SoundyAliasAnalysis/include/ModuleState.h:205-347 | a new location lands between the start and the stop node, after everything that reaches it and before everything it reaches, and where it is inevitable if that is asked |
| `ThreadSpec.InsertSucceedsIff` | llvm_analysis/MainAnalysisPasses/SoundyAliasAnalysis/include/ModuleState.h:205-347 | a location that is not there gets in exactly when it is comparable with everything in the window, reaches the stop and is reached from the start |
| `ThreadSpec.InevitableInsertIff` | llvm_analysis/MainAnalysisPasses/SoundyAliasAnalysis/include/ModuleState.h:260-320 | an inevitable location gets in exactly where an ordinary one would and every path between the neighbours of its place, or every path from the entry if it comes first, or every path to an exit if it comes last, meets it |
| `ThreadSpec.PresentMeans` | llvm_analysis/MainAnalysisPasses/SoundyAliasAnalysis/include/ModuleState.h:232-268 | a location that is there already and that the start reaches is accepted exactly when it lies behind the start and not behind the stop and has a type of the request or may be merged; it is merged exactly when it has none, and the node then holds both |
| `ThreadSpec.AcceptedCarries` | llvm_analysis/MainAnalysisPasses/SoundyAliasAnalysis/include/ModuleState.h:252-334 | the node an accepted request with one type hands back is at the location and has the type |
| `ThreadSpec.NewMeans` | llvm_analysis/MainAnalysisPasses/SoundyAliasAnalysis/include/ModuleState.h:269-347 | a new location goes in at the index of the answer with the types of the request; a refusal changes nothing and says why |
| `ThreadSpec.RemoveKeepsWellFormed` | llvm_analysis/MainAnalysisPasses/SoundyAliasAnalysis/include/ModuleState.h:446-487 | removing a location or some of its type bits keeps the thread in order |
| `ThreadSpec.RollbackIff` | llvm_analysis/MainAnalysisPasses/SoundyAliasAnalysis/include/ModuleState.h:446-487 | insert and remove cancel out exactly when the node was new or had a type before; otherwise it is dropped |
| `ThreadSpec.RollbackCanDropANode` | llvm_analysis/MainAnalysisPasses/SoundyAliasAnalysis/include/ModuleState.h:400-417 | for a thread alone: after testLocInSeq has left a node without a type, an insertion there and its removal drop the node |
| `ThreadRuns.RunKeeps` | llvm_analysis/MainAnalysisPasses/SoundyAliasAnalysis/include/ModuleState.h:205-487 | any run of insertions and removals keeps a thread duplicate-free and chained, and nodes that stay keep their order |
| `Threads.Thread.InsertLoc` | llvm_analysis/MainAnalysisPasses/SoundyAliasAnalysis/include/ModuleState.h:205-350 | the vector becomes what the specification says, whose answer the rows above decide for new locations and for those that are there; a dry run or a refusal changes nothing |
| `Threads.Thread.TestInsertLoc` | llvm_analysis/MainAnalysisPasses/SoundyAliasAnalysis/include/ModuleState.h:353-361 | changes nothing and answers yes exactly when the real call would succeed |
| `Threads.Thread.TestLocInSeq` | llvm_analysis/MainAnalysisPasses/SoundyAliasAnalysis/include/ModuleState.h:400-417 | answers as the insertion would, and on success leaves the location behind with an empty type |
| `Threads.Thread.FindPlace` | llvm_analysis/MainAnalysisPasses/SoundyAliasAnalysis/include/ModuleState.h:250-320 | the scan finds the first index the location can go in front of, or that rules it out |
| `Threads.Thread.RemoveNode` | llvm_analysis/MainAnalysisPasses/SoundyAliasAnalysis/include/ModuleState.h:470-487 | clears type bits and drops the node once none is left; -1 for a node that is dropped, its index for one that stays, -2 for one that is not there, -3 for null; other nodes are untouched |
| `Threads.Thread.RemoveLoc` | llvm_analysis/MainAnalysisPasses/SoundyAliasAnalysis/include/ModuleState.h:446-468 | the same by location: -1 for a node that is dropped, its index for one that stays, -2 for a location that is not there |
| `Constraints.POConstraint.AddConstraint` | llvm_analysis/MainAnalysisPasses/Utils/include/Constraint.h:328-341 | records a < b, unless an end is missing or both are one node |
| `Constraints.POConstraint.AddConstraintOr` | llvm_analysis/MainAnalysisPasses/Utils/include/Constraint.h:345-382 | records the disjunction of the pairs with two different ends; -1 when none is left |
| `SchedSpec.SolutionFollowsThread` | llvm_analysis/MainAnalysisPasses/SoundyAliasAnalysis/include/ModuleState.h:706-716 | every solution gives increasing numbers along a thread |
| `SchedSpec.MutualExclusion` | llvm_analysis/MainAnalysisPasses/SoundyAliasAnalysis/src/ModuleState.cpp:398-426 | in every solution two excluded regions never interleave: everything inside one comes before everything inside the other |
| `Schedules.ThreadSched.RegionsNeverMeet` | llvm_analysis/MainAnalysisPasses/SoundyAliasAnalysis/src/ModuleState.cpp:398-426 | if no call is filed both as a lock and as an unlock, no region ends where another begins, no exclusion loses a disjunct, and the recorded clause holds exactly when one region ends before the other begins |
| `Locksets.SitesAreApart` | llvm_analysis/MainAnalysisPasses/SoundyAliasAnalysis/src/LocksetAnalysisVisitor.cpp:54-65 | no call is filed both as a lock and as an unlock if no call site was resolved to functions of both kinds |
| `Locksets.DirectIsOneSided` | llvm_analysis/MainAnalysisPasses/LinuxKernelCustomizations/src/KernelFunctionChecker.cpp:69-81 | which is so when every call site has one callee, because no function is on both sides of the table |
| `Locksets.IndirectCallIsBoth` | llvm_analysis/MainAnalysisPasses/SoundyAliasAnalysis/src/LocksetAnalysisVisitor.cpp:16-108 | a call site that was resolved to both ends up on both sides, paired with itself |
| `Locksets.GetPairedLockFuncs` | llvm_analysis/MainAnalysisPasses/LinuxKernelCustomizations/src/KernelFunctionChecker.cpp:219-237 | exactly the partners of a function, none exactly for a function that is not in the table, and the side it is on |
| `Locksets.TableIsCovered` | llvm_analysis/MainAnalysisPasses/LinuxKernelCustomizations/src/KernelFunctionChecker.cpp:306-326 | every function of the table of pairs passes the test for lock functions, so none of its pairs is idle |
| `Locksets.StrippedMeans` | llvm_analysis/MainAnalysisPasses/LinuxKernelCustomizations/src/KernelFunctionChecker.cpp:308-315 | what is compared is the name from its first letter on that is no underscore |
| `Locksets.LocksetState.VisitCallInst` | llvm_analysis/MainAnalysisPasses/SoundyAliasAnalysis/src/LocksetAnalysisVisitor.cpp:16-108 | files a lock, or an unlock with its partners, or nothing; over any calls a lock stays paired with exactly the later unlocks of its kind, object and context that control reaches from it around those paired before, and pairing stays mutual |
| `Locksets.PairedMeans` | llvm_analysis/MainAnalysisPasses/SoundyAliasAnalysis/src/LocksetAnalysisVisitor.cpp:64-108 | a lock is paired with exactly the later unlocks its function is paired with in the table, in a fitting context, of a common object or of none on either side, to which a path leads that passes no unlock it was paired with before |
| `Locksets.UnlockKeepsPairs` | llvm_analysis/MainAnalysisPasses/SoundyAliasAnalysis/src/LocksetAnalysisVisitor.cpp:64-108 | one more unlock, entered at every lock it meets now, changes no older pair and leaves the record exact |
| `SchedSpec.ExclusionIsNeverEmpty` | llvm_analysis/MainAnalysisPasses/SoundyAliasAnalysis/src/ModuleState.cpp:398-426 | recording an exclusion never fails for want of a disjunct |
| `SchedSpec.ChildRunsInside` | llvm_analysis/MainAnalysisPasses/SoundyAliasAnalysis/src/ModuleState.cpp:255-266 | in every solution what the child held lies strictly between CREATE and JOIN |
| `SchedSpec.KillerBeforeCheck` | llvm_analysis/MainAnalysisPasses/SoundyAliasAnalysis/src/ModuleState.cpp:598-604 | a killer at or before its check in one thread: the check-before-kill constraint has no solution exactly when the two differ |
| `SchedSpec.HarmlessMeans` | llvm_analysis/MainAnalysisPasses/SoundyAliasAnalysis/src/ModuleState.cpp:651-690 | a killer is harmless exactly when it is not behind its check, some path from the entry to the check leaves it out, and no node before it is there to free only |
| `BuildFacts.TrappedIsFatal` | llvm_analysis/MainAnalysisPasses/SoundyAliasAnalysis/src/ModuleState.cpp:587-604 | a killer that gets between the node that only frees and a check of the same thread is never dropped, and dooms the build when it is tried |
| `SchedSpec.InsertGrows` | llvm_analysis/MainAnalysisPasses/SoundyAliasAnalysis/include/ModuleState.h:205-347 | an insertion loses no node and no type bit of a thread |
| `SchedSpec.GrownSound` | llvm_analysis/MainAnalysisPasses/SoundyAliasAnalysis/src/ModuleState.cpp:310-426 | growing threads keeps every named node and region in its thread |
| `Schedules.ThreadSched.AddLoc` | llvm_analysis/MainAnalysisPasses/SoundyAliasAnalysis/include/ModuleState.h:667-699 | the first thread that takes the location gets it; a new thread only when asked; nothing else changes |
| `Schedules.ThreadSched.SecondOrUndo` | llvm_analysis/MainAnalysisPasses/SoundyAliasAnalysis/src/ModuleState.cpp:243-254 | the first insertion of a failed pair is undone: threads and type masks are exactly as before |
| `Schedules.ThreadSched.AddSyncPair` | llvm_analysis/MainAnalysisPasses/SoundyAliasAnalysis/src/ModuleState.cpp:212-275 | terminates; each recorded pair is a CREATE node before a JOIN node of one other thread and brackets all the child held; exactly the threads both events fit get one, and a failed attempt changes no thread |
| `Schedules.ThreadSched.InsertRegion` | llvm_analysis/MainAnalysisPasses/SoundyAliasAnalysis/src/ModuleState.cpp:466-490 | a node for the lock goes not behind the location and one for the unlock behind it, or the thread is as it was |
| `Schedules.ThreadSched.AddLockTrLocs` | llvm_analysis/MainAnalysisPasses/SoundyAliasAnalysis/src/ModuleState.cpp:432-500 | each lock around the location is recorded as a region around it or was refused by the thread at some moment; no other region is recorded |
| `Schedules.ThreadSched.GetLock4Loc` | llvm_analysis/MainAnalysisPasses/SoundyAliasAnalysis/include/ModuleState.h:2949-2995 | exactly the locks whose context fits and that reach the location, each with exactly the paired unlocks reached from there around the lock |
| `Schedules.ThreadSched.NoKill` | llvm_analysis/MainAnalysisPasses/SoundyAliasAnalysis/src/ModuleState.cpp:651-690 | answers when a killer cannot undo a check: it comes before the check and a way leads to the check |
| `Schedules.ThreadSched.MustKill` | llvm_analysis/MainAnalysisPasses/SoundyAliasAnalysis/src/ModuleState.cpp:634-649 | answers exactly when the killer sits at or before its check in the same thread |
| `Schedules.ThreadSched.TryKillers` | llvm_analysis/MainAnalysisPasses/SoundyAliasAnalysis/src/ModuleState.cpp:566-613 | the killers kept follow the check by constraint; each killer was kept or dropped at some moment at which it did not doom the check; when none is kept nothing has changed; -1 exactly with a killer that dooms the check when it is tried |
| `Schedules.ThreadSched.AddCondTrLocs` | llvm_analysis/MainAnalysisPasses/SoundyAliasAnalysis/src/ModuleState.cpp:512-632 | -1 exactly when some killer of some check dooms it when it is tried; otherwise each check is in place for this with its killers behind it, or came to nothing at some moment |
| `Schedules.ThreadSched.SuppWorklist` | llvm_analysis/MainAnalysisPasses/SoundyAliasAnalysis/src/ModuleState.cpp:310-372 | keeps the schedule sound and loses nothing; every node is supplied unless three rounds or 32 locations are reached, and no round begins after that; -1 only with a killer that dooms its check |
| `Schedules.ThreadSched.ClusterLocks` | llvm_analysis/MainAnalysisPasses/SoundyAliasAnalysis/src/ModuleState.cpp:376-397 | the clusters partition the locks, and are the classes of sameLockObjs exactly when that is an equivalence |
| `Schedules.ThreadSched.ExcludeClusters` | llvm_analysis/MainAnalysisPasses/SoundyAliasAnalysis/src/ModuleState.cpp:376-426 | every two regions of one cluster that differ at both ends have their exclusion recorded |
| `Schedules.ThreadSched.AddSeqConstraint` | llvm_analysis/MainAnalysisPasses/SoundyAliasAnalysis/include/ModuleState.h:706-716 | afterwards every thread is ordered by the constraints and no node is in two places |
| `Schedules.ThreadSched.InitUAFThreads` | llvm_analysis/MainAnalysisPasses/SoundyAliasAnalysis/include/ModuleState.h:603-648 | one thread exactly when the first location reaches the second, refused exactly when they are in a loop; the order of the two is recorded |
| `Schedules.ThreadSched.AddOneEFPath` | llvm_analysis/MainAnalysisPasses/SoundyAliasAnalysis/src/ModuleState.cpp:102-122 | a path of minimal length is walked; it adds exactly the clauses of its links, and fails only at a fetch whose escape or whose place cannot be had |
| `Schedules.ThreadSched.TakesMeans` | llvm_analysis/MainAnalysisPasses/SoundyAliasAnalysis/src/ModuleState.cpp:128-155 | a fetch can be linked, and an escape goes into the thread of its fetch, exactly when the thread has a place for it not behind the node that follows it |
| `Schedules.ThreadSched.NoneTakesMeans` | llvm_analysis/MainAnalysisPasses/SoundyAliasAnalysis/src/ModuleState.cpp:155-166 | an escape goes to the first other thread with a place for it, and to a new one exactly when none has any |
| `BuildFacts.EscapeIsMirrored` | llvm_analysis/MainAnalysisPasses/SoundyAliasAnalysis/src/ModuleState.cpp:141-149 | on a path of blocks the escape linked to a fetch is the one mirrored inside its block, through the same field |
| `BuildFacts.UseOfBlock` | llvm_analysis/MainAnalysisPasses/SoundyAliasAnalysis/src/ModuleState.cpp:122-210 | what a block fetches is used at the first escape of the next block, or at the end of the path |
| `Schedules.ThreadSched.WalkPath` | llvm_analysis/MainAnalysisPasses/SoundyAliasAnalysis/src/ModuleState.cpp:122-210 | every fetch with a site, walked from the end, is linked to its paired escape: the escape comes first and the fetch is not after its use |
| `Schedules.ThreadSched.AddEFPaths` | llvm_analysis/MainAnalysisPasses/SoundyAliasAnalysis/src/ModuleState.cpp:64-100 | a shortest path of each pair is linked to its end, and nothing is done when both pairs start at one object |
| `Schedules.ThreadSched.AddSyncTrLocs` | llvm_analysis/MainAnalysisPasses/SoundyAliasAnalysis/src/ModuleState.cpp:279-303 | every range of every thread is offered to every other thread, and is recorded exactly where it fits; what is recorded stays recorded while the threads grow |
| `Schedules.ThreadSched.Build` | llvm_analysis/MainAnalysisPasses/SoundyAliasAnalysis/include/ModuleState.h:3701-3758 | fails at the start exactly for a looping pair; otherwise the node of the first location is there to free and that of the second to use; fails on a path only at a fetch that cannot be linked; a rejection has a killer that dooms its check; a complete schedule has exactly the clauses of what it records |
| `Schedules.ThreadSched.NoKillerInBetween` | llvm_analysis/MainAnalysisPasses/SoundyAliasAnalysis/src/ModuleState.cpp:512-632 | in a complete build each killer of each check was tried at a moment at which it did not get between the node that only frees and the check |
| `Schedules.ThreadSched.SolutionsAreExact` | llvm_analysis/MainAnalysisPasses/SoundyAliasAnalysis/include/ModuleState.h:3701-3770 | a numbering solves the constraints of a complete schedule if and only if it meets the order its threads, links, killers, sync pairs and lock clusters ask for |
| `Schedules.ThreadSched.PathLeadsToEnd` | llvm_analysis/MainAnalysisPasses/SoundyAliasAnalysis/src/ModuleState.cpp:122-210 | in every solution each escape on a path comes before its fetch, and what the fetch gets is used no later than the end of the path |
| `Schedules.ThreadSched.SolutionsAreSensible` | llvm_analysis/MainAnalysisPasses/SoundyAliasAnalysis/include/ModuleState.h:3701-3770 | every solution of a complete schedule frees before it uses, escapes before it fetches and fetches before it uses, checks before it kills, keeps the lock regions of a cluster apart and child threads inside their bracket |
| `EqvPaths.GetPairedIndex` | llvm_analysis/MainAnalysisPasses/SoundyAliasAnalysis/include/AliasObject.h:433-469 | the paired node is the mirror image of the node in its run of escapes and fetches, or there is none; and it says when the unsigned index leaves the path |
| `EqvPaths.FetchMeans` | llvm_analysis/MainAnalysisPasses/SoundyAliasAnalysis/include/AliasObject.h:443-454 | on any path an escape is paired with the fetch as far behind the first fetch after it as it is in front of that, if there is one |
| `EqvPaths.EscapeMeans` | llvm_analysis/MainAnalysisPasses/SoundyAliasAnalysis/include/AliasObject.h:455-467 | and a fetch with the escape as far before the last escape in front of it; the index leaves the path exactly when there is no such escape or too little in front of it |
| `EqvPaths.PairingIsAnInvolution` | llvm_analysis/MainAnalysisPasses/SoundyAliasAnalysis/include/AliasObject.h:433-469 | on paths made of blocks the index stays in the path, and pairing is an involution between an escape and a fetch through one field, mirrored inside the block |
| `EqvPaths.WrapBlock` | llvm_analysis/MainAnalysisPasses/SoundyAliasAnalysis/include/AliasObject.h:1112-1120 | an escape in front and a fetch at the end of a block make a block |
| `EqvPaths.ConnectBlocks` | llvm_analysis/MainAnalysisPasses/SoundyAliasAnalysis/include/AliasObject.h:558-590 | joining paths of blocks gives a path of blocks |
| `EqvPairs.ConnectIsConcatenation` | llvm_analysis/MainAnalysisPasses/SoundyAliasAnalysis/include/AliasObject.h:565-593 | connecting is concatenation of path languages, the empty set standing for the empty path |
| `EqvPairs.FirstEscapeMeans` | llvm_analysis/MainAnalysisPasses/SoundyAliasAnalysis/include/AliasObject.h:471-483 | the first half of a signature is the context of the first located escape of the start object in the leading run of escapes |
| `EqvPairs.LastFetchMeans` | llvm_analysis/MainAnalysisPasses/SoundyAliasAnalysis/include/AliasObject.h:484-496 | the second half is the context of the last located fetch of the end object in the closing run of fetches |
| `EqvPairs.SigMeans` | llvm_analysis/MainAnalysisPasses/SoundyAliasAnalysis/include/AliasObject.h:471-496 | two paths have one signature exactly when both of these contexts agree |
| `EqvPairs.TrimExtracts` | llvm_analysis/MainAnalysisPasses/SoundyAliasAnalysis/include/AliasObject.h:710-748 | trimming keeps exactly one path for each pair of contexts in which the start first escapes and the end is last fetched, of minimal length for it |
| `EqvPairs.LastFetchesStay` | llvm_analysis/MainAnalysisPasses/SoundyAliasAnalysis/include/AliasObject.h:700-748 | two paths last fetched in different contexts are each represented after a trimming, by different paths |
| `EqvPairs.ExtractKeepsShortest` | llvm_analysis/MainAnalysisPasses/SoundyAliasAnalysis/include/AliasObject.h:682-748 | so the shortest length is unchanged |
| `EqvPairs.MergeTakesTheMinimum` | llvm_analysis/MainAnalysisPasses/SoundyAliasAnalysis/include/AliasObject.h:600-631 | the shortest path of a merged pair is as long as the shorter of the two |
| `EqvPairs.MergeMeans` | llvm_analysis/MainAnalysisPasses/SoundyAliasAnalysis/include/AliasObject.h:600-631 | merging gives all paths of both pairs, or from 128 on an extract of them; a pair with other ends adds nothing |
| `EqvPairs.MergeKeepsTidy` | llvm_analysis/MainAnalysisPasses/SoundyAliasAnalysis/include/AliasObject.h:600-631 | a pair that counts as trimmed never holds two paths with the same ends; it counts so when it was cut down now, or before and nothing is new |
| `EqvPairs.ConnectMeans` | llvm_analysis/MainAnalysisPasses/SoundyAliasAnalysis/include/AliasObject.h:558-598 | pairs connect exactly where they meet; the result has all connected paths, or from 128 on an extract of them, and is tidy |
| `EqvPairs.EqvObjPair.TrimPaths` | llvm_analysis/MainAnalysisPasses/SoundyAliasAnalysis/include/AliasObject.h:706-748 | the paths become an extract of themselves, once: one path, a shortest, for each first escape and last fetch |
| `EqvPairs.EqvObjPair.Connect` | llvm_analysis/MainAnalysisPasses/SoundyAliasAnalysis/include/AliasObject.h:558-598 | refused exactly when the ends do not meet; otherwise the concatenation, trimmed at the threshold |
| `EqvPairs.EqvObjPair.Merge` | llvm_analysis/MainAnalysisPasses/SoundyAliasAnalysis/include/AliasObject.h:600-631 | takes in the new paths of a pair with the same ends, and re-trims only then |
| `EqvPairs.EqvObjPair.AddF` | llvm_analysis/MainAnalysisPasses/SoundyAliasAnalysis/include/AliasObject.h:634-645 | the node goes in front of every path, or starts the first one |
| `EqvPairs.EqvObjPair.AddE` | llvm_analysis/MainAnalysisPasses/SoundyAliasAnalysis/include/AliasObject.h:648-659 | the node goes to the end of every path, or starts the first one |
| `EqvPairs.FrontMeans` | llvm_analysis/MainAnalysisPasses/SoundyAliasAnalysis/include/AliasObject.h:634-645 | exactly the old paths with the node in front are there afterwards, or the node alone |
| `EqvPairs.EndMeans` | llvm_analysis/MainAnalysisPasses/SoundyAliasAnalysis/include/AliasObject.h:648-659 | the same at the end |
| `EqvPairs.EqvObjPair.GetShortestEqvPath` | llvm_analysis/MainAnalysisPasses/SoundyAliasAnalysis/include/AliasObject.h:682-693 | a path of minimal length, none for an empty pair |
| `EqvSearch.DerivedPathIsBlock` | llvm_analysis/MainAnalysisPasses/SoundyAliasAnalysis/include/AliasObject.h:974-1136 | every derivable path is n escapes followed by n fetches, paired fields equal |
| `EqvSearch.AddIsSound` | llvm_analysis/MainAnalysisPasses/SoundyAliasAnalysis/include/AliasObject.h:862-912 | entering a pair keeps a map of derivable pairs derivable |
| `EqvSearch.Search.ValidateEqvStack` | llvm_analysis/MainAnalysisPasses/SoundyAliasAnalysis/include/AliasObject.h:916-967 | the first objection: a spent budget, then what speaks against the object; the stack is as it was |
| `EqvSearch.StackCodeMeans` | llvm_analysis/MainAnalysisPasses/SoundyAliasAnalysis/include/AliasObject.h:938-967 | nothing speaks against an object exactly when no pending one is the same or of its recursive type and, with two or more pending, none has its type; -3 exactly when only the last of these fails |
| `EqvSearch.FirstObjection` | llvm_analysis/MainAnalysisPasses/SoundyAliasAnalysis/include/AliasObject.h:938-957 | otherwise the first pending object that is the same, or of its recursive type, decides which objection is raised |
| `EqvSearch.TameHere` | llvm_analysis/MainAnalysisPasses/SoundyAliasAnalysis/include/AliasObject.h:974-1136 | a graph none of whose chains of hosts and containers repeats an object, a recursive type or, below the second step, a type, stays so for every search it goes on to |
| `EqvSearch.ErrMeans` | llvm_analysis/MainAnalysisPasses/SoundyAliasAnalysis/include/AliasObject.h:974-1136 | forward the error of the host is handed on; backward that of the last container searched, whatever the others said |
| `EqvSearch.Search.GetForwardEqvObjsOnce` | llvm_analysis/MainAnalysisPasses/SoundyAliasAnalysis/include/AliasObject.h:974-1136 | terminates on cyclic graphs; every pair, cached or pruned, is derivable and ends at its key; where no chain of the graph is objectionable and no budget is set nothing is cut off, and the objects found are exactly the derivable ones |
| `EqvSearch.Search.GetBackwardEqvObjsOnce` | llvm_analysis/MainAnalysisPasses/SoundyAliasAnalysis/include/AliasObject.h:1252-1413 | the same backwards |
| `EqvSearch.WholeIsExact` | llvm_analysis/MainAnalysisPasses/SoundyAliasAnalysis/include/AliasObject.h:974-1136 | a result of a search that no limit cut short holds exactly the objects some derivable path leads to |
| `EqvSearch.StarPathIsBlocks` | llvm_analysis/MainAnalysisPasses/SoundyAliasAnalysis/include/AliasObject.h:1140-1248 | every path of the closure is a concatenation of blocks |
| `EqvSearch.ConnectLeads` | llvm_analysis/MainAnalysisPasses/SoundyAliasAnalysis/include/AliasObject.h:1193-1207 | connecting two pairs that lead somewhere gives one that leads there in steps |
| `EqvSearch.StitchLeads` | llvm_analysis/MainAnalysisPasses/SoundyAliasAnalysis/include/AliasObject.h:1193-1207 | the ends of what is connected always meet, so connecting never fails |
| `EqvSearch.RoundGivesWithin` | llvm_analysis/MainAnalysisPasses/SoundyAliasAnalysis/include/AliasObject.h:1170-1230 | one more round adds exactly the objects one more step away |
| `EqvSearch.WithinIsExact` | llvm_analysis/MainAnalysisPasses/SoundyAliasAnalysis/include/AliasObject.h:1140-1248 | when the cached results are whole, the objects found in n rounds are exactly those at most n layers away |
| `EqvSearch.TameWithinIsExact` | llvm_analysis/MainAnalysisPasses/SoundyAliasAnalysis/include/AliasObject.h:1140-1248 | where no chain of the graph is objectionable the objects found in n rounds are exactly those at most n layers away |
| `EqvSearch.Search.Rounds` | llvm_analysis/MainAnalysisPasses/SoundyAliasAnalysis/include/AliasObject.h:1140-1248 | after n rounds exactly the objects within n steps; a closure when the worklist empties; otherwise the first round after which one of the limits is reached is the last |
| `EqvSearch.Search.GetEqvObjs` | llvm_analysis/MainAnalysisPasses/SoundyAliasAnalysis/include/AliasObject.h:1140-1248 | the same for the answer given out, from the cache or new, with paths that lead there; exact on graphs without objectionable chains |
| `FieldStore.AliasObject.AddPointsFrom` | llvm_analysis/MainAnalysisPasses/SoundyAliasAnalysis/include/AliasObject.h:2105-2128 | the target keeps one record per field and target field; a second one only reactivates the first |
| `FieldStore.AliasObject.ErasePointsFrom` | llvm_analysis/MainAnalysisPasses/SoundyAliasAnalysis/include/AliasObject.h:2131-2150 | takes the records the target keeps for the field and target field out, or sets their activity, and touches no others |
| `FieldStore.AliasObject.Dispose` | llvm_analysis/MainAnalysisPasses/SoundyAliasAnalysis/include/AliasObject.h:852-862 | afterwards no target keeps a record of the object, and the records of other objects are all there |
| `FieldStore.AliasObject.ActivateFieldPto` | llvm_analysis/MainAnalysisPasses/SoundyAliasAnalysis/include/AliasObject.h:2153-2169 | the flag of a record and of the one that stands for it in the index change together, no other |
| `FieldStore.AliasObject.ResetPtos` | llvm_analysis/MainAnalysisPasses/SoundyAliasAnalysis/src/AliasObject.cpp:108-150 | an entry switch loses no record; outside the index foreign records become inactive, global ones active; entries stay isolated |
| `FieldStore.SettledIsIsolated` | llvm_analysis/MainAnalysisPasses/SoundyAliasAnalysis/src/AliasObject.cpp:131-148 | after a switch an active record shares its pointee with one of the new entry or a global one |
| `FieldStore.AliasObject.GetLivePtos` | llvm_analysis/MainAnalysisPasses/SoundyAliasAnalysis/src/AliasObject.cpp:152-188 | the active records whose site arrives at the location around the sites of the strong active ones |
| `FieldSpec.OverridesMeans` | llvm_analysis/MainAnalysisPasses/SoundyAliasAnalysis/src/AliasObject.cpp:765-784 | a store overrides exactly what was stored elsewhere under its entry if no way from there out of the function avoids it, and what comes from outside if no way through the function does |
| `FieldSpec.ArrivesMeans` | llvm_analysis/MainAnalysisPasses/SoundyAliasAnalysis/src/AliasObject.cpp:152-188 | a record arrives at a load exactly along the paths of its entry whose interior no blocker of that entry is on, and one from outside along such ways in |
| `FieldStore.AliasObject.FetchLive` | llvm_analysis/MainAnalysisPasses/SoundyAliasAnalysis/src/AliasObject.cpp:386-422 | a fetch sees no pointee that is private to another entry |
| `FieldStore.AliasObject.Unify` | llvm_analysis/MainAnalysisPasses/SoundyAliasAnalysis/src/AliasObject.cpp:714-755 | one record per pointee, strong as soon as one of them is, unless the caller decides |
| `FieldSpec.UnifiedMeans` | llvm_analysis/MainAnalysisPasses/SoundyAliasAnalysis/src/AliasObject.cpp:714-756 | exactly the given pointees get a record, one each; it is weak if all given ones are, or as the caller decides; something is stored for certain exactly if some given record is strong or the caller asks for it |
| `FieldStore.AliasObject.Scan` | llvm_analysis/MainAnalysisPasses/SoundyAliasAnalysis/src/AliasObject.cpp:765-802 | one pass condemns all active overridden records, finds the record of the store itself and wakes it |
| `FieldStore.AliasObject.UpdateFieldPointsToDo` | llvm_analysis/MainAnalysisPasses/SoundyAliasAnalysis/src/AliasObject.cpp:708-849 | the whole effect of an update on records, index, activity and weakness; the index stays the exact inverse, no record is lost, entries stay isolated |
| `FieldStore.AliasObject.UpdateFieldPointsTo` | llvm_analysis/MainAnalysisPasses/SoundyAliasAnalysis/src/AliasObject.cpp:699-705 | the same with the entry switch before it |
| `FieldStore.EnteredKeepsExact` | llvm_analysis/MainAnalysisPasses/SoundyAliasAnalysis/src/AliasObject.cpp:829-836 | entering a new record keeps one index record per field, target and target field, and none besides |
| `FieldStore.StrongUpdateOverrides` | llvm_analysis/MainAnalysisPasses/SoundyAliasAnalysis/src/AliasObject.cpp:757-841 | after a strong update an active record whose site it post-dominates points to something it stores, in spite of reactivation through the index |
| `FieldStore.OtherPointees` | llvm_analysis/MainAnalysisPasses/SoundyAliasAnalysis/src/AliasObject.cpp:757-841 | whether a record of a pointee that is not stored stays active, decided on the state before |
| `FieldStore.StoredRecordIsActiveIff` | llvm_analysis/MainAnalysisPasses/SoundyAliasAnalysis/src/AliasObject.cpp:785-812 | the store's own record is active afterwards exactly unless it existed, the index holds it, and the store overrides another active record of its pointee |
| `FieldStore.RepeatedStoreLosesItsRecord` | llvm_analysis/MainAnalysisPasses/SoundyAliasAnalysis/src/AliasObject.cpp:785-812 | a do-while loop visited in two rounds, as a `MAX_LOOP_CNT` of 2 would have it, whose last store leaves the field without an active record |
| `FieldStore.UpdateKeepsIsolation` | llvm_analysis/MainAnalysisPasses/SoundyAliasAnalysis/src/AliasObject.cpp:699-841 | an update under the current entry keeps entries isolated |
| `FieldStore.Run` | llvm_analysis/MainAnalysisPasses/SoundyAliasAnalysis/src/AliasObject.cpp:108-849 | any run of stores and loads over any objects keeps every index exact and every entry isolated |
| `ReachingDefs.StandingDecides` | llvm_analysis/MainAnalysisPasses/SoundyAliasAnalysis/src/AliasObject.cpp:152-188 | a definition that reaches a read which is not caught in a loop with what matters to it was visited before, and nothing visited has overridden it |
| `ReachingDefs.BlockersDecide` | llvm_analysis/MainAnalysisPasses/SoundyAliasAnalysis/src/AliasObject.cpp:152-188 | a write reaches a read around the strong writes that reach it exactly if it does around all strong writes, whatever other records were dropped |
| `ReachingDefs.OutsideDecides` | llvm_analysis/MainAnalysisPasses/SoundyAliasAnalysis/src/AliasObject.cpp:152-188 | the same for what was there at the entry |
| `ReachingDefs.AcyclicLeaves` | llvm_analysis/MainAnalysisPasses/SoundyAliasAnalysis/src/GlobalVisitor.cpp:519-540 | in a finite acyclic graph control always leaves |
| `ReachingDefs.OlderRecord` | llvm_analysis/MainAnalysisPasses/SoundyAliasAnalysis/src/AliasObject.cpp:757-841 | a write leaves an older record active exactly as control flow and the order of the visits say, and keeps its weakness and its place in the index |
| `ReachingDefs.UntangledMeans` | llvm_analysis/MainAnalysisPasses/SoundyAliasAnalysis/src/AliasObject.cpp:757-841 | no record of a write that stands is ever lost exactly if no strong write overrides a later write of a pointee and not the first one, which stands |
| `ReachingDefs.OwnPointeesUntangle` | llvm_analysis/MainAnalysisPasses/SoundyAliasAnalysis/src/AliasObject.cpp:757-841 | writes with pointees of their own never tangle |
| `ReachingDefs.SettledIsKept` | llvm_analysis/MainAnalysisPasses/SoundyAliasAnalysis/src/GlobalVisitor.cpp:519-562 | a read that control can leave from, that no later write reaches and that reaches no earlier strong write, loses nothing without tangles |
| `ReachingDefs.ReadIsOwed` | llvm_analysis/MainAnalysisPasses/SoundyAliasAnalysis/src/AliasObject.cpp:152-188 | what a read gets is exactly the records of its reaching definitions and the preset records that reach it, if and only if all of those were visited and are active |
| `ReachingDefs.Analyze` | llvm_analysis/MainAnalysisPasses/SoundyAliasAnalysis/src/GlobalVisitor.cpp:519-562 | visiting each access once, in any order and on any control flow, every read gets exactly the active writes that reach it around the active strong ones, and what it is owed if and only if nothing of that was lost |
| `ReachingDefs.AnalyzeAll` | llvm_analysis/MainAnalysisPasses/SoundyAliasAnalysis/src/AliasObject.cpp:108-150 | the same under one entry after another: the switch wakes the preset records again, and no entry gets anything of another |
| `ReachingDefs.AcyclicIsOwed` | llvm_analysis/MainAnalysisPasses/SoundyAliasAnalysis/src/GlobalVisitor.cpp:519-562 | in an acyclic function, visited in topological order and without tangles, every read gets what it is owed |
| `ReachingDefs.SharedPointeeIsLost` | llvm_analysis/MainAnalysisPasses/SoundyAliasAnalysis/src/AliasObject.cpp:765-812 | a function without loops in which two branches store one pointee, and the read where they meet misses one of them |
| `ReachingDefs.HeaderMissesTheBody` | llvm_analysis/MainAnalysisPasses/SoundyAliasAnalysis/include/GlobalVisitor.h:29-30 | a while loop whose header does not see the store of the body that reaches it |
| `KillerPaths.Search.EscapeKseq` | llvm_analysis/MainAnalysisPasses/SoundyAliasAnalysis/include/ModuleState.h:1656-1722 | terminates; yes exactly when some loop-free continuation has left every killer sequence; on no the path is as it was |
| `KillerPaths.NoEscapeKills` | llvm_analysis/MainAnalysisPasses/SoundyAliasAnalysis/include/ModuleState.h:1648-1722 | on no, every loop-free way on to the return begins with a killer sequence |
| `KillerPaths.EscapeIsFinal` | llvm_analysis/MainAnalysisPasses/SoundyAliasAnalysis/include/ModuleState.h:1648-1722 | on yes, there is a continuation no extension of which begins with a killer sequence |
| `KillerPaths.GetKlocsFromSeqs` | llvm_analysis/MainAnalysisPasses/SoundyAliasAnalysis/include/ModuleState.h:1728-1758 | exactly the blocks that are a sequence of their own or whose sequences cannot be escaped; -1 for no sequences |
| `KillerPaths.KillerLocationsAreInevitable` | llvm_analysis/MainAnalysisPasses/SoundyAliasAnalysis/include/ModuleState.h:1724-1758 | from a killer location every loop-free way to the return begins with a killer sequence |
| `Layout.DescIsTruthful` | llvm_analysis/MainAnalysisPasses/Utils/src/InstructionUtils.cpp:1274-1394 | each place of a type description lies at the sum of the offsets on its way, and nothing is nested any further there |
| `Layout.DescIsComplete` | llvm_analysis/MainAnalysisPasses/Utils/src/InstructionUtils.cpp:1274-1394 | a place is described exactly when a way into the type ends in a part that has no description of its own, with the sum of its offsets |
| `Layout.WayIsDescribed` | llvm_analysis/MainAnalysisPasses/Utils/src/InstructionUtils.cpp:1310-1381 | so every element of every array and every field of every struct, however deep, is in the description |
| `Layout.DescIsOrdered` | llvm_analysis/MainAnalysisPasses/Utils/src/InstructionUtils.cpp:1274-1394 | the places come in the order of the ways to them |
| `Layout.DescIsAscending` | llvm_analysis/MainAnalysisPasses/Utils/src/InstructionUtils.cpp:1274-1394 | the places come in the order of their offsets, inside the type |
| `Layout.FieldStartsThere` | llvm_analysis/MainAnalysisPasses/Utils/src/InstructionUtils.cpp:1396-1416 | the first place found for a field is where the field begins |
| `Layout.LocateField` | llvm_analysis/MainAnalysisPasses/Utils/src/InstructionUtils.cpp:1396-1416 | the first place of the field, -1 exactly when it has none |
| `Layout.LocateBitsoff` | llvm_analysis/MainAnalysisPasses/Utils/src/InstructionUtils.cpp:1418-1434 | the first place at the offset, -1 exactly when there is none, although the search stops early |
| `Forest.EmbeddedIsForest` | llvm_analysis/MainAnalysisPasses/SoundyAliasAnalysis/include/AliasObject.h:2281-2304 | embedding a tree keeps every object's root, offset and host right |
| `Forest.CutIsForest` | llvm_analysis/MainAnalysisPasses/SoundyAliasAnalysis/src/AliasObject.cpp:949-959 | so does letting go of an embedded object |
| `Forest.RenewedMeans` | llvm_analysis/MainAnalysisPasses/SoundyAliasAnalysis/src/AliasObject.cpp:913-997 | an object of a wrong type keeps the field but loses its host, everything outside it is left alone, and the new object stands apart |
| `Forest.EmbeddingKeepsDistances` | llvm_analysis/MainAnalysisPasses/SoundyAliasAnalysis/src/AliasObject.cpp:999-1065 | within a tree nothing moves relative to anything when it gets a host |
| `Forest.OffMeans` | llvm_analysis/MainAnalysisPasses/Utils/src/InstructionUtils.cpp:1274-1394 | a field of a struct begins where the layout puts it, an element of an array after those before it, and the place of a variable index where the object does |
| `Forest.MakeableMeans` | llvm_analysis/MainAnalysisPasses/SoundyAliasAnalysis/src/AliasObject.cpp:17-33 | objects are made for structs and arrays that are not empty |
| `Forest.WantedMeans` | llvm_analysis/MainAnalysisPasses/SoundyAliasAnalysis/src/AliasObject.cpp:913-997 | what can be embedded at a field has the type of the field, not a simple one, and the one expected if any is |
| `Forest.TypeAtMeans` | llvm_analysis/MainAnalysisPasses/Utils/src/InstructionUtils.cpp:1532-1600 | a type has something at an index exactly when the index is valid: itself at 0, a field of a struct, the element type of an array at its places and at -1 |
| `Embedding.Obj.SetEmbObj` | llvm_analysis/MainAnalysisPasses/SoundyAliasAnalysis/include/AliasObject.h:2281-2304 | an occupied field, or a wrong type when types are checked, is refused; a free tree moves into the field as a whole, and an object that has a host already only changes its own host |
| `Embedding.Obj.CreateEmbObj` | llvm_analysis/MainAnalysisPasses/SoundyAliasAnalysis/src/AliasObject.cpp:913-997 | the fitting object on file, or a new one, embedded exactly when the field was free; null exactly when no object can be there |
| `Embedding.Obj.CreateHostObj` | llvm_analysis/MainAnalysisPasses/SoundyAliasAnalysis/src/AliasObject.cpp:999-1065 | a host on file is honoured; a new one is made exactly when type and field fit, and takes the whole tree in |
| `Embedding.Obj.Reset` | llvm_analysis/MainAnalysisPasses/SoundyAliasAnalysis/include/AliasObject.h:2789-2845 | the object gets the new type and keeps what is embedded, whose places move along; the forest stays in order exactly unless an object that is on file without being there comes to fit |
| `BitOffsets.StepInto` | llvm_analysis/MainAnalysisPasses/SoundyAliasAnalysis/src/AliasObject.cpp:913-997 | a step inwards lands at the offset of the field in the same root, unless the field holds a misfit: then outside the old objects |
| `BitOffsets.CreateEmbObjChain` | llvm_analysis/MainAnalysisPasses/SoundyAliasAnalysis/src/AliasObject.cpp:1551-1601 | descends along a description without losing a bit; it reaches its step whenever the first host has the right type |
| `BitOffsets.Climb` | llvm_analysis/MainAnalysisPasses/SoundyAliasAnalysis/src/AliasAnalysisVisitor.cpp:1282-1383 | climbing recorded hosts never changes the place aimed at, and ends inside an object or at a root |
| `BitOffsets.Descend` | llvm_analysis/MainAnalysisPasses/SoundyAliasAnalysis/src/AliasAnalysisVisitor.cpp:1444-1486 | succeeds exactly when the type has a place at the offset, and then stands there |
| `BitOffsets.EndingMeans` | llvm_analysis/MainAnalysisPasses/SoundyAliasAnalysis/src/AliasAnalysisVisitor.cpp:1384-1486 | a pointer that climbs no further succeeds exactly when it has nothing left to move, or some way into its type ends at the offset it aims at |
| `BitOffsets.ClimbEndMeans` | llvm_analysis/MainAnalysisPasses/SoundyAliasAnalysis/src/AliasAnalysisVisitor.cpp:1282-1383 | it stops climbing at the first host around it whose type holds the place aimed at, or whose host is not recorded |
| `BitOffsets.StrayMeans` | llvm_analysis/MainAnalysisPasses/SoundyAliasAnalysis/src/AliasAnalysisVisitor.cpp:1444-1486 | it strays exactly when an object of a wrong type is on the first way inwards that ends where it is going |
| `BitOffsets.Bit2Field` | llvm_analysis/MainAnalysisPasses/SoundyAliasAnalysis/src/AliasAnalysisVisitor.cpp:1269-1486 | it succeeds exactly when it has nothing to move or some way into the type it climbs to ends at the place aimed at, and then stands at the end of the first such way; success moves the pointer by exactly bitWidth*index bits inside the same outermost object, and moves nothing else, if and only if no object of a wrong type is on its way |
| `BitOffsets.ResetMakesAMisfit` | llvm_analysis/MainAnalysisPasses/SoundyAliasAnalysis/src/AliasAnalysisVisitor.cpp:156-176 | a struct is embedded, then reset to an array; that makes an object of a wrong type on the way, and a pointer moved over it leaves the object |
| `Hierarchy.Walk.InHistory` | llvm_analysis/MainAnalysisPasses/SoundyAliasAnalysis/include/ModuleState.h:2613-2646 | the last repeated node, counting nodes of one recursive type as one; otherwise the object is added |
| `Hierarchy.Walk.IsValid` | llvm_analysis/MainAnalysisPasses/SoundyAliasAnalysis/include/ModuleState.h:2649-2668 | short, or all of different types |
| `Hierarchy.Walk.Traverse` | llvm_analysis/MainAnalysisPasses/SoundyAliasAnalysis/include/ModuleState.h:2674-2760 | terminates on cyclic graphs, returns the number of callbacks it made, puts the history back, and reports exactly the owed chains |
| `Hierarchy.ReportedIsComplete` | llvm_analysis/MainAnalysisPasses/SoundyAliasAnalysis/include/ModuleState.h:2670-2760 | the chains reported through a new object are exactly the complete ones: linked, free of repeats and locals, believable up to the end, and ended for one of three reasons |
| `Hierarchy.CompleteMeans` | llvm_analysis/MainAnalysisPasses/SoundyAliasAnalysis/include/ModuleState.h:2613-2760 | what that means on the objects alone: each link embeds or points to what is below it, nothing new is local or repeats an object or a recursive type, beyond three links all types differ, and the chain ends where they do not, where only locals are above, or where it meets itself |
| `GlobalEscape.SplicedOut` | llvm_analysis/MainAnalysisPasses/SoundyAliasAnalysis/include/ModuleState.h:446-468 | taking a new bare node out gives back the thread |
| `Traces.BareInsert` | llvm_analysis/MainAnalysisPasses/SoundyAliasAnalysis/include/ModuleState.h:205-347 | insertion looks at locations and types only, not at the identity of nodes |
| `Traces.TakenMeans` | llvm_analysis/MainAnalysisPasses/SoundyAliasAnalysis/include/ModuleState.h:205-347 | a location that may be merged is taken exactly when it has a place in the window: it is there, or the thread stays in order with it |
| `Traces.SyncMeans` | llvm_analysis/MainAnalysisPasses/SoundyAliasAnalysis/src/ModuleState.cpp:227-258 | a CREATE and a JOIN event fit a thread exactly when there are places for both, in this order |
| `Traces.RegionMeans` | llvm_analysis/MainAnalysisPasses/SoundyAliasAnalysis/src/ModuleState.cpp:466-492 | a region fits around an event exactly when the lock has a place at or before the event with which the unlock has one after it |
| `Traces.CheckMeans` | llvm_analysis/MainAnalysisPasses/SoundyAliasAnalysis/src/ModuleState.cpp:546-558 | a check fits exactly when it has a place at or before the location it guards |
| `Traces.KillerMeans` | llvm_analysis/MainAnalysisPasses/SoundyAliasAnalysis/src/ModuleState.cpp:566-604 | a killer goes to the first thread that has a place for it, is dropped for want of a place exactly when no thread has one, and dooms a check exactly when that is the thread of the check, with a place up to the check, and it is not harmless there |
| `GlobalEscape.EscapesMeans` | llvm_analysis/MainAnalysisPasses/SoundyAliasAnalysis/src/ModuleState.cpp:1045-1148 | the search says yes exactly when there is a chain of stores from heap objects into non-local ones, without repeats, to one that a global pointer reaches, the sites of one instance and fitting the thread one after the other |
| `GlobalEscape.SameInstanceMeans` | llvm_analysis/MainAnalysisPasses/SoundyAliasAnalysis/src/ModuleState.cpp:1012-1022 | two sites can concern one allocation exactly when one of them is unknown or nothing is allocated, or a path from one to the other does not pass the allocation again |
| `GlobalEscape.DirectionMeans` | llvm_analysis/MainAnalysisPasses/SoundyAliasAnalysis/src/ModuleState.cpp:1005-1022 | forwards the path must lead from the first site to the second, backwards the other way, and otherwise either will do |
| `GlobalEscape.AfterMeans` | llvm_analysis/MainAnalysisPasses/SoundyAliasAnalysis/include/ModuleState.h:400-417 | a store fits a thread where an ordinary insertion would put it, in front of the last node or behind the first if that is asked, and stays in as a bare node |
| `GlobalEscape.Search.ViaPointers` | llvm_analysis/MainAnalysisPasses/SoundyAliasAnalysis/src/ModuleState.cpp:1065-1078 | yes exactly when some global pointer's site fits the thread |
| `GlobalEscape.Search.ViaSite` | llvm_analysis/MainAnalysisPasses/SoundyAliasAnalysis/src/ModuleState.cpp:1099-1136 | one store: on no, history and thread are as before |
| `GlobalEscape.Search.HasGlobalEscape` | llvm_analysis/MainAnalysisPasses/SoundyAliasAnalysis/src/ModuleState.cpp:1045-1148 | terminates on cyclic graphs, says yes exactly when a fitting chain of stores to global memory exists, and on no leaves history and thread as they were |

## Left out

- Cfg.ReachIffPath: one finite graph stands for the code under an entry; the reconstruction of call chains from calling contexts, and blockers inside callees, are not modelled.
- Cfg.DomMeans: as for reachability, one graph stands for the code under an entry.
- Cfg.PostDomMeans: as for reachability, one graph stands for the code under an entry.
- Schedules.ThreadSched.AddLockTrLocs: which of the paired unlocks is tried depends on the order of a C++ set of pointers; the model tries any one of them.
- FieldStore.AliasObject.FetchLive: equivalent array elements, the change of type of a fetched heap object, and the pointee made for a field that has none are not modelled.
- FieldStore.AliasObject.Dispose: the taint of the object, which goes with it, is not modelled.
- ReachingDefs.Analyze: each write is visited once, as `MAX_LOOP_CNT` has it, and stores one pointee; a preset record shares its pointee with no other record of the field; for loops visited again the store results that hold for any run apply.
- Locksets.LocksetState.VisitCallInst: callees with a body, which get a visitor of their own, and how the lock objects of a call are found are not modelled; the objects are a parameter.
- BitOffsets.Bit2Field: a variable array index and the branch that guesses an unknown container type end in outcomes of their own; vector types, 64-bit overflow and the truncation of an offset to `int` are not modelled.
- EqvPaths.GetPairedIndex: where the unsigned index of the program leaves the path, the model says so and answers -1.
- The type bits of a schedule node are kept beside it in its thread, not inside the node object; the points-to records attached to a node are not modelled.
- The activity and weakness flags of a field record are kept with the object the record starts from, keyed by the identity of the record.
- Null pointers that make a function return at once, and null members of containers.
- The order in which a C++ set of pointers is walked: where the outcome depends on it the loops pick in any order, and in `EqvPairs` a sequence stands for it.
- Paths shared between pairs after a merge, and the freeing of paths: paths are values. The search keeps pairs as values; the class `EqvObjPair` is verified on its own.
- The solver: a solution is defined, not computed.
- What the schedule builder asks the rest of the analysis (lock sites and contexts, condition checks with their killers, call ranges of a child thread, whether an object is on a local heap, `sameLockObjs`) is a parameter.
- `fork`, alternative schedules and the stub `addOnePtoPath`.
- How killer sequences are found (`_getKseqs`) and the trait analysis behind it.
- The heuristic filters of the equivalence search by reference counters and linked-list calls, except where they only narrow what is searched.
- The filters of `validateUAF` that run before and after the schedule is built.
- The nested-object lookup before a field access: an update or a fetch starts at the object that holds the field.
- Path coverage of live records, which is compiled out.
- Records handed to an update are active, as the records of top-level pointers always are.
- Taint, callbacks, function pointers, type inference, printing, timing and memory freeing.
