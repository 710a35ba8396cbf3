# Verified kernels of the Kāra compiler

Dafny models of the compiler's algorithmic kernels, with proofs of what each of them is for.

- **Dominators** (`Cfgs`, `LinkTables`, `ReversePostorders`, `DominatorFacts`, `Dominators`): the explicit-stack
  depth-first search to reverse postorder and the Cooper-Harvey-Kennedy iteration with its two-finger intersection,
  as methods over arrays. They end on every graph, and the answers are dominance as defined by paths.
- **Strongly connected components** (`Sorting`, `TarjanFacts`, `Tarjan`): recursive Tarjan as a class with mutable
  index, low links and stack. The result is the decomposition into mutual reachability, in reverse topological order.
- **Effect groups** (`EffectGroupFacts`, `EffectGroups`): memoised expansion with cycle detection, as a class. The
  groups are taken in any order, as a hash map yields them.
- **Pattern exhaustiveness** (`Patterns`, `TypeParts`, `Matrices`, `Usefulness`, `MatrixWeights`, `Termination`,
  `Misleading`, `Searches`, `Searching`, `WildSearching`, `Lowering`, `Exhaustive`, `Decisions`): usefulness over
  pattern matrices with witnesses, the all-wildcard shortcut, the reachability pass and irrefutability. Integers,
  characters, strings and opaque named types have infinitely many values; or-patterns have alternatives, as the parser
  makes them (`src/parser/patterns.rs:28-38`). The recursion carries the number of nested calls the stack has room for.
  It ends exactly if every search over an empty matrix ends that it can come to (`EndsExactly`, `WildEndsExactly`).
  Where every type met has a constructor, this means that following first constructors ends
  (`EndsExactlyIfGrounded`). It does not for an enum whose first variant holds the enum again, as a tuple payload may
  (`src/typechecker/derives.rs:628-636` rejects only an enum named directly): a match that leaves this variant
  uncovered is then not answered with any amount of stack (`ConsFirstNeverEnds`). Where the recursion ends, an answer
  that nothing is missing is always right. An answer that something is missing is right for every match over a type
  exactly if the type does not mislead (`VerdictIsRightExactly`): opened and read from left to right, it never holds a
  part without values with a part behind it that patterns can split. The pair of the never type and a boolean does
  (`VoidElementMisleads`), an enum with a never payload alone does not (`VoidPayloadIsHarmless`). The two conditions
  together are exactly those under which all matches over a type are decided rightly (`MatchesAreDecidedExactly`,
  `ArmsAreDecidedExactly`).
- **Control-flow graphs** (`CfgSyntax`, `CfgRuns`, `CfgLowering`, `CfgBuilders` and the proof modules): the builder
  class, proved equal to lowering functions, and a big-step semantics of the same fragment that emits use events. The
  entry-to-exit paths of the built graph spell exactly the traces of terminating runs, and the graph is reducible. The
  fragment: uses, operators and calls evaluated left to right, blocks, assignments, `if`, `if let`, `match` without
  guards, `while`, `while let`, `for`, `loop`, labelled `break` and `continue`, `return`, `?`, `defer` and `errdefer`.
  Deferred bodies contain no `return` or `?` and jump only to loops of their own: bodies that leave themselves are
  outside the fragment, and nothing is claimed about them. As in the builder, every `return` counts as an error exit and
  runs the errdefers.
- **Automatic parallel grouping** (`Conflicts`, `ParallelGroups`, `Interleavings`): the conflict relation, the edge
  matrix and the greedy grouping. Statements in execution are arbitrary step functions that respect their footprints:
  they touch the variables they read or define and the parts of resources their effects concern, one part for each
  category of verbs that conflict, and change only what they define or what an effect beyond a read concerns. A
  polymorphic call may touch and change any resource. The local state of a statement holds its progress.
- **Edit distance** (`EditDistance`): the table of the Levenshtein distance and the choice of suggestions.
- **Fixes** (`CmdFix`): sorting, overlap filter, dry run and in-place rewriting of `karac fix`, on bytes. The filter
  keeps a largest choice of edits exactly if everything it drops overlaps something it keeps. The input that shows it
  can fail, an empty edit listed before another at its offset, is not one the command produces: every edit takes its
  length from a span (`src/resolver.rs:774-778` and `797-801`, `src/resolver/collect.rs:881-886` and `952-956`,
  `src/ownership/expr_check.rs:1126-1130`).
- **String literals** (`Utf8`, `StringLiterals`, `StringForms`, `StringLexer`): the printer's escaping and the lexer's
  cursor over a literal, with positions. `StringForms` says what a literal is apart from the code that lexes it.

`Graphs` holds paths and reachability, `Basics` small shared definitions. Machine integers matter in three places and are
modelled there: the undefined marker of the dominator pass, the saturating end of an edit, and the 32-bit value of a
unicode escape.

Where the code and its comments differ, the code is followed: `consume_codepoint` (`src/lexer.rs:1288-1302`) passes the
announced length of a malformed sequence, not one byte as its comment says, and a literal's span gives the line the
literal ends on together with the column it starts at (`src/lexer.rs:1381-1390`).

`dafny verify dfyconfig.toml` checks the whole project.

## Model

| member | source | states |
|---|---|---|
| `Cfgs.Predecessors` | src/cfg.rs:121-128 | exactly the blocks that list the given block as a successor, once each, in block order |
| `ReversePostorders.ReversePostorder` | src/dominator.rs:183-215 | on every graph: each reachable block once, entry first; every other listed block has a predecessor earlier in the list; an edge that does not lead forward in the list closes a cycle |
| `ReversePostorders.IndexTable` | src/dominator.rs:209-214 | the position table is the inverse of the list, with the marker for unlisted blocks |
| `Dominators.Intersect` | src/dominator.rs:167-176 | ends, and meets at a block whose ancestors are exactly the common ancestors of the two fingers |
| `Dominators.NewIdom` | src/dominator.rs:114-135 | over the predecessors processed so far, the result's chain is exactly what their chains share |
| `Dominators.ComputeDominators` | src/dominator.rs:95-162 | ends on every graph, and every link is the immediate dominator defined by paths; none for the entry and for unreachable blocks |
| `Dominators.DominatesQuery` | src/dominator.rs:54-70 | for a reachable block, true iff every path from the entry passes through `a`; an unreachable block is dominated only by itself |
| `DominatorFacts.UpdateLowers` | src/dominator.rs:136-139 | each update moves the link strictly earlier in the order, so the sum over all blocks drops and the outer loop ends |
| `DominatorFacts.FixpointIsExact` | src/dominator.rs:106-141 | when a pass changes nothing, the chains hold exactly the path-based dominators |
| `DominatorFacts.ChainHoldsDominators` | src/dominator.rs:106-141 | whatever dominates a block is on its chain at every moment of the iteration |
| `DominatorFacts.TreePath` | src/dominator.rs:183-215 | an ancestor in the search tree reaches a block through blocks no earlier than itself in the order |
| `DominatorFacts.StepInPass` | src/dominator.rs:115-141 | evaluating a block keeps the invariants of a pass: links only move up the old chains and stay on the chain of the tree parent |
| `DominatorFacts.PassEnds` | src/dominator.rs:113-141 | the invariants of a completed pass are those the next pass starts from |
| `Tarjan.TarjanScc` | src/effectchecker.rs:1541-1620 | a partition of all names reachable from the nodes into exactly the classes of mutual reachability, each in lexicographic order; an edge between classes leads to one emitted earlier; classes are emitted in the order of the least node that reaches them |
| `Tarjan.TarjanState.StrongConnect` | src/effectchecker.rs:1554-1598 | explores one name: keeps the search invariant, leaves the stack below alone, and the low link is a stack index the name reaches, and at most every index below it that the newly stacked names reach by one edge |
| `Tarjan.TarjanState.CloseComponent` | src/effectchecker.rs:1585-1597 | pops exactly the names above and including the root of a component and emits them sorted |
| `TarjanFacts.PartIsComponent` | src/effectchecker.rs:1585-1597 | when a name's low link is its own index, the names from it to the top of the stack are one component |
| `TarjanFacts.LowCloses` | src/effectchecker.rs:1585-1585 | a low link equal to the index means nothing below on the stack can be reached from above |
| `TarjanFacts.CloseKeeps` | src/effectchecker.rs:1585-1597 | emitting a component keeps the search invariant |
| `TarjanFacts.StayKeeps` | src/effectchecker.rs:1585-1598 | a finished name that stays on the stack reaches a name still being explored below it |
| `Tarjan.SearchDecomposes` | src/effectchecker.rs:1604-1619 | when all nodes have been explored, the result is the decomposition |
| `EffectGroupFacts.AddIsUnion` | src/effectchecker.rs:84-89 | adding keeps lists free of duplicates and adds exactly one effect |
| `EffectGroupFacts.MergedKeepsFirst` | src/effectchecker.rs:644-685 | merging keeps, in the order of the terms, exactly the effects that do not occur before them, each with its own position |
| `EffectGroups.EffectChecker.ExpandGroup` | src/effectchecker.rs:621-687 | keeps the invariant of memoised expansion under cycles: results are final unless a circular reference has been recorded, and then there is a cycle |
| `EffectGroups.EffectChecker.ExpandBody` | src/effectchecker.rs:644-685 | a body expands to the merged effects of its terms; references to undefined groups are recorded and add nothing |
| `EffectGroups.EffectChecker.ExpandEffectGroups` | src/effectchecker.rs:602-619 | in any order of the groups: a circular reference is recorded iff the reference graph has a cycle, and only for groups on one; otherwise every group satisfies its expansion equation; exactly the undefined references are recorded |
| `EffectGroupFacts.SolutionIsReachable` | src/effectchecker.rs:621-687 | on acyclic declarations each expansion is duplicate-free and holds exactly the effects reachable through references |
| `EffectGroupFacts.OriginIsDeclared` | src/effectchecker.rs:650-661 | every effect of an expansion is traced to the position of a verb term, in a group within reach, that declares it |
| `EffectGroupFacts.SolutionIsUnique` | src/effectchecker.rs:602-619 | on acyclic declarations the expansion does not depend on the order groups are visited in, down to the order of each list |
| `EffectGroups.SettledIsAcyclic` | src/effectchecker.rs:630-642 | if every group was finished after the groups it refers to, there is no cycle to report |
| `EffectGroups.FoundCycle` | src/effectchecker.rs:630-642 | meeting a group that is still being expanded means a cycle of references |
| `Matrices.SpecializeRows` | src/exhaustive.rs:602-636 | the loops over rows and alternatives compute the specialised matrix |
| `Matrices.SpecializeMeans` | src/exhaustive.rs:602-636 | the specialised matrix covers a constructor's arguments and the rest iff the matrix covers the built value |
| `Matrices.SpecializeOk` | src/exhaustive.rs:602-636 | specialising keeps rows typed, with the constructor's fields as new columns |
| `Matrices.DefaultRows` | src/exhaustive.rs:639-663 | the loops over rows and alternatives compute the default matrix |
| `Matrices.DefaultMeans` | src/exhaustive.rs:639-663 | for a value whose constructor no row names, the default matrix covers the rest iff the matrix covers the whole |
| `MatrixWeights.SpecializeShrinks` | src/exhaustive.rs:602-636 | counting constructors and alternatives, specialising never makes a matrix heavier, and makes it lighter unless its first column holds wildcards only |
| `Termination.EndsExactlyIfGrounded` | src/exhaustive.rs:487-581 | where every type has a constructor: the recursion ends on every typed query iff, from every type met on the way into the scrutinee's, the chain of first constructors ends |
| `Termination.GroundedEnds` | src/exhaustive.rs:487-581 | the recursion ends on any matrix, for any number of columns; without the shortcut, or with types that have no constructor, if the chains of all constructors end |
| `Termination.ConsFirstNeverEnds` | src/exhaustive.rs:557-568 | for a list enum with its recursive variant declared first, a match with only the other arm is not answered with any amount of stack |
| `Termination.NilFirstIsGrounded` | src/exhaustive.rs:557-568 | with the other variant declared first, the same enum meets the condition |
| `Searching.EndsExactly` | src/exhaustive.rs:487-581 | over any types: the recursion ends on every typed matrix and pattern of a type iff every search it can come to over an empty matrix ends, those that may succeed and those that are in vain |
| `Searching.SearchableIsGrounded` | src/exhaustive.rs:487-581 | where every type met has a constructor, the same as that the chains of first constructors end |
| `Searching.GroundedIsSearchable` | src/exhaustive.rs:487-581 | all searches end where the chains of first constructors do, and where those of all constructors do |
| `WildSearching.WildEndsExactly` | src/exhaustive.rs:155-176 | over any types: the recursion ends on a wildcard, as the check of a whole match asks for, over every typed matrix iff every search that one can come to ends |
| `WildSearching.SearchableIsWildSearchable` | src/exhaustive.rs:135-176 | the check of a whole match ends wherever the checks of its arms do |
| `Searches.EmptyAnswer` | src/exhaustive.rs:487-581 | over the empty matrix, an answer says whether some values match the query |
| `Usefulness.CoveredMeans` | src/exhaustive.rs:487-581 | no witness: every well-typed value vector the query matches is matched by a row; over any types, recursive or not |
| `Usefulness.UncoveredMeans` | src/exhaustive.rs:487-598 | a witness has one pattern per column, and some well-typed vector it and the query match is matched by no row: always without the shortcut, and with it where the columns do not mislead |
| `Usefulness.UncoveredSplits` | src/exhaustive.rs:487-581 | a query is left uncovered by a matrix with rows only where the columns hold two constructors to tell apart, one of which can be built together with all that stands behind it |
| `Usefulness.ShortcutAgrees` | src/exhaustive.rs:543-556 | where both end, skipping an all-wildcard column never loses a missing value that enumerating constructors finds, and invents none where the columns do not mislead |
| `Misleading.MisleadsExactly` | src/exhaustive.rs:543-568 | some matrix that covers every value leaves a query of wildcards uncovered iff the columns mislead: opened and read from left to right they hold a part without values, and behind it one that patterns can split |
| `TypeParts.VoidPayloadIsHarmless` | src/exhaustive.rs:543-568 | an enum with a payload of the never type and nothing behind it does not mislead, though not every type met has a value |
| `Usefulness.FreshValue` | src/exhaustive.rs:569-577 | an open domain has a value outside any finite set of constructors named by rows |
| `Patterns.ValuesAreAsDeclared` | src/exhaustive.rs:665-760 | the enumerated constructors and their field types give a type exactly the values its declaration has; of variants with one name the first counts |
| `Exhaustive.EnumeratedAsDeclared` | src/exhaustive.rs:665-690 | variants are enumerated in the order they are declared, true before false |
| `Exhaustive.WitnessIsFirst` | src/exhaustive.rs:557-568 | a missing value is reported for the first constructor that has one: all values of those enumerated before it have unguarded arms |
| `Exhaustive.SplitIsHandled` | src/exhaustive.rs:185-200 | a type whose values patterns can tell apart, or that has none, is never skipped |
| `Termination.FoundedHasValue` | src/exhaustive.rs:665-701 | a type whose chain of first constructors ends has a value |
| `Lowering.LowerIsOk` | src/exhaustive.rs:214-360 | lowering a well-typed surface pattern gives a well-typed matrix pattern |
| `Lowering.LowerMatches` | src/exhaustive.rs:214-360 | the lowered pattern matches exactly the values the surface pattern accepts |
| `Lowering.LowerIsOnto` | src/exhaustive.rs:214-360 | every typed matrix pattern is the lowering of a typed surface pattern |
| `Exhaustive.BuildMatrix` | src/exhaustive.rs:202-212 | one row for each unguarded arm, in order |
| `Exhaustive.RowsMeanApplies` | src/exhaustive.rs:202-212 | the matrix covers a value iff an unguarded arm accepts it |
| `Exhaustive.CheckMatchExhaustive` | src/exhaustive.rs:155-176 | skipped: exactly the unit type and the types that stand for references, functions and unresolved types; exhaustive: every value has an unguarded arm; not exhaustive, where the type does not mislead: the witness, the one pattern the recursion leaves, matches a real value without one; no verdict only when the recursion runs out of stack |
| `Exhaustive.ExhaustiveMeans` | src/exhaustive.rs:155-176 | a verdict is exact in both directions, the negative one where the type does not mislead |
| `Exhaustive.VerdictIsRightExactly` | src/exhaustive.rs:155-176 | the verdict that a value is missing is right for every match over a type iff the type does not mislead |
| `Exhaustive.PairVerdictIsRightExactly` | src/exhaustive.rs:155-176 | for pairs with a boolean behind: right for every match iff every type met on the way into the first component has a value |
| `Exhaustive.VoidElementMisleads` | src/exhaustive.rs:155-176 | on pairs of the never type and a boolean, which have no values, a match with the one arm `(_, true)` gets the verdict that a value is missing |
| `Exhaustive.GroundedIsDecided` | src/exhaustive.rs:155-176 | over a type whose chains of first constructors end, recursive or not, or whose chains of all constructors end and that does not mislead, the check ends, and says exhaustive iff every value has an unguarded arm |
| `Exhaustive.IsPatternIrrefutable` | src/exhaustive.rs:115-127 | irrefutable: the pattern accepts every value of the type; refutable, where the type does not mislead: it misses one |
| `Exhaustive.RefutableIsRightExactly` | src/exhaustive.rs:115-127 | the answer refutable is right for every pattern of a type iff the type does not mislead |
| `Exhaustive.UnreachableArms` | src/exhaustive.rs:135-153 | flags, in order, only arms all whose values match an earlier unguarded arm, and all such arms where the type does not mislead; no list only when the recursion for some arm runs out of stack |
| `Exhaustive.FlaggedMeansShadowed` | src/exhaustive.rs:135-153 | the test made for one arm is exact, where it ends and the type does not mislead |
| `Exhaustive.SparedIsRightExactly` | src/exhaustive.rs:135-153 | an arm that is spared can be reached, in every match over a type, iff the type does not mislead |
| `Exhaustive.GroundedArmIsDecided` | src/exhaustive.rs:135-153 | over such a type the test for an arm ends, and flags it iff all its values match an earlier unguarded arm |
| `Decisions.MatchesAreDecidedExactly` | src/exhaustive.rs:155-176 | with room enough every match over a type gets the right verdict, iff every search a wildcard can come to ends and the type does not mislead |
| `Decisions.ArmsAreDecidedExactly` | src/exhaustive.rs:135-153 | with room enough exactly the shadowed arms are flagged in every match over a type, iff every search ends and the type does not mislead |
| `Exhaustive.DeletionIsInvisible` | src/exhaustive.rs:129-153 | deleting all flagged arms at once changes the selected arm for no value and no guard outcomes |
| `Exhaustive.DeletionKeepsVerdict` | src/exhaustive.rs:129-176 | deleting all flagged arms at once does not change the exhaustiveness verdict, where both checks end and the type does not mislead |
| `CfgSyntax.ResolveIsInnermost` | src/cfg.rs:958-963 | a label resolves to the last enclosing loop that has it, no label to the last loop; to none iff there is no such loop |
| `CfgSyntax.CleanupIsInOrder` | src/cfg.rs:376-394 | each body due at an exit runs once: all of them on an error exit, the defers alone on others; errdefers before defers, and within a kind the last declared first |
| `CfgSyntax.PlainIsOk` | src/cfg.rs:319-340 | bodies that defer nothing are all in the fragment |
| `CfgBuilders.ResolveLoopFrame` | src/cfg.rs:958-963 | the backward scan finds the frame of the innermost loop with the label, or of the innermost loop |
| `CfgLowering.BlockOperations` | src/cfg.rs:287-306 | the three block operations change one block or add an empty one; nothing is lost and no edge is doubled |
| `CfgBuilders.CfgBuilder.FreshBlock` | src/cfg.rs:287-295 | a new empty block whose identifier is its index |
| `CfgBuilders.CfgBuilder.Connect` | src/cfg.rs:297-302 | adds an edge at most once, and nothing else changes |
| `CfgBuilders.CfgBuilder.Record` | src/cfg.rs:304-306 | appends a use to a block, and nothing else changes |
| `CfgBuilders.CfgBuilder.LowerBlock` | src/cfg.rs:319-340 | the statement loop with its pushed and popped registry builds the specified blocks and leaves the stack as it was |
| `CfgBuilders.CfgBuilder.EmitBodies` | src/cfg.rs:376-394 | re-lowers the bodies of one kind, last declared first, each in a block of its own |
| `CfgBuilders.CfgBuilder.EmitScopeCleanup` | src/cfg.rs:359-396 | one scope's cleanup: errdefers before defers on error exits, defers alone on others |
| `CfgBuilders.CfgBuilder.EmitUnwindChain` | src/cfg.rs:404-418 | the scopes from the innermost down to the target, in that order |
| `CfgBuilders.CfgBuilder.LowerStmt` | src/cfg.rs:420-487 | registers deferred bodies without lowering them; assignments lower their value before their target |
| `CfgBuilders.CfgBuilder.LowerExpr` | src/cfg.rs:493-834 | every construct of the fragment builds the specified blocks; edges stay inside the block list |
| `CfgBuilders.CfgBuilder.LowerIfExpr` | src/cfg.rs:602-648 | branches meet in a merge block; without an else branch the condition's block leads there too |
| `CfgBuilders.CfgBuilder.LowerMatchExpr` | src/cfg.rs:649-667 | one block per arm, all meeting in one merge block |
| `CfgBuilders.CfgBuilder.LowerMatchArms` | src/cfg.rs:656-665 | the loop over arms builds the specified blocks |
| `CfgBuilders.CfgBuilder.LowerWhileExpr` | src/cfg.rs:669-716 | the condition is lowered in the header, to which the body leads back |
| `CfgBuilders.CfgBuilder.LowerForExpr` | src/cfg.rs:717-743 | the iterable is lowered once, before the header |
| `CfgBuilders.CfgBuilder.LowerLoopExpr` | src/cfg.rs:744-760 | the body starts in the header and leads back to it |
| `CfgBuilders.CfgBuilder.LowerJumpExpr` | src/cfg.rs:761-800 | `break` and `continue` unwind to their loop and jump; lowering goes on in an unreachable block |
| `CfgBuilders.CfgBuilder.LowerReturnExpr` | src/cfg.rs:801-819 | `return` unwinds every scope and leads to the exit |
| `CfgBuilders.CfgBuilder.LowerQuestionExpr` | src/cfg.rs:820-834 | the error edge of `?` unwinds every scope to the exit, beside the edge that goes on |
| `CfgBuilders.BuildCfg` | src/cfg.rs:150-166 | a well-formed graph whose entry-to-exit paths spell exactly the traces of terminating runs |
| `CfgTraces.PathsAreRuns` | src/cfg.rs:140-166 | for all bodies of the fragment and all traces: some entry-to-exit path spells the trace iff some terminating run has it, where each exit runs the right deferred bodies once, innermost scope first, errdefers before defers, last declared first |
| `CfgTraces.RunIsPath` | src/cfg.rs:493-834 | every terminating run is a path of the built graph |
| `CfgTraces.PathIsRun` | src/cfg.rs:493-834 | every entry-to-exit path of the built graph is a terminating run |
| `CfgComplete.CompleteE` | src/cfg.rs:493-834 | a run of an expression with any outcome is a walk of the finished graph from where it was lowered to where the outcome leads, through the pending cleanup |
| `CfgComplete.CompleteStmts` | src/cfg.rs:319-340 | leaving a scope in any way runs the cleanup it had registered by then, before that of the enclosing scopes |
| `CfgComplete.CompleteJump` | src/cfg.rs:761-800 | `break` and `continue` run the cleanup of exactly the scopes inside their loop |
| `CfgSound.SoundE` | src/cfg.rs:493-834 | any walk of the finished graph from a lowered expression to the exit begins with one of its runs |
| `CfgSound.SoundStmts` | src/cfg.rs:319-340 | any walk from a lowered block to the exit begins with a run of its statements and their cleanup |
| `CfgSound.SoundRounds` | src/cfg.rs:717-760 | a walk from a loop header to the exit begins with rounds of the body, ended by the loop's end or a jump out of it |
| `CfgReducible.CyclesHaveHeaders` | src/cfg.rs:8-11 | the built graph is reducible: every cycle contains a block that dominates all blocks of the cycle |
| `CfgReducible.NeatE` | src/cfg.rs:493-834 | lowering an expression adds edges only to its own new blocks and to jump targets, and every cycle among its new blocks is entered through one block |
| `CfgReducible.NeatWhile` | src/cfg.rs:669-716 | a loop's header guards everything lowered inside the loop |
| `Conflicts.EffectsConflict` | src/concurrency.rs:479-488 | the nested loops find a conflicting pair iff there is one |
| `Conflicts.ConflictsExactly` | src/concurrency.rs:505-549 | on one resource two effects of one verb conflict unless both read, and otherwise only a read and a write do |
| `Conflicts.EffectsInterfere` | src/concurrency.rs:505-549 | two effects conflict iff they concern a common part of a resource and one of them is more than a read |
| `Conflicts.StatementsConflict` | src/concurrency.rs:449-476 | the early returns compute the conflict relation |
| `Conflicts.ConflictMeansInterference` | src/concurrency.rs:449-549 | apart from `seq` blocks, statements conflict iff one footprint changes a cell the other touches |
| `ParallelGroups.BuildEdges` | src/concurrency.rs:346-360 | the filled matrix holds exactly the conflicts |
| `ParallelGroups.GrowGroup` | src/concurrency.rs:578-615 | a group grows to its greatest conflict-free contiguous extent |
| `ParallelGroups.MakeGroup` | src/concurrency.rs:617-659 | trivial iff all statements are pure or at most one does more than initialise a constant; the captured names are exactly those assigned but not introduced by a statement |
| `ParallelGroups.FindParallelGroups` | src/concurrency.rs:554-661 | the emitted groups are exactly the runs of two or more statements that the walk cuts the body into |
| `ParallelGroups.AnalyzeBody` | src/concurrency.rs:332-367 | the same for a whole body, from its statements' metadata |
| `ParallelGroups.RunsAreACut` | src/concurrency.rs:563-615 | the runs are disjoint, in order, conflict-free and without early exits, and hold every other statement |
| `ParallelGroups.RunsAreFewest` | src/concurrency.rs:563-615 | no cut into conflict-free contiguous runs has fewer runs, counting singletons |
| `ParallelGroups.GroupsAreFree` | src/concurrency.rs:595-615 | no two statements of an emitted group conflict |
| `Interleavings.CapturedExactly` | src/concurrency.rs:181-192 | a captured name is assigned and not introduced by one member of the group, and neither read nor assigned by another |
| `Interleavings.OnlyCapturedChanges` | src/concurrency.rs:181-192 | running a group in any way changes no variable but captured ones and those its members introduce |
| `Interleavings.TrivialExactly` | src/concurrency.rs:621-641 | trivial: no member touches a resource, or all but one only initialise constants |
| `Interleavings.InterleavingIsSafe` | src/concurrency.rs:3-12 | every interleaving of an emitted group that completes ends in the store of source order, which completes too; no interleaving takes more steps |
| `Interleavings.SchedulesAgree` | src/concurrency.rs:449-549 | all completing schedules of conflict-free statements end in the same local states and store |
| `Interleavings.SourceOrderCompletes` | src/concurrency.rs:449-549 | if an interleaving completes, so does running the statements one after the other |
| `Interleavings.EachGoesItsOwnWay` | src/concurrency.rs:449-549 | after any schedule each statement has come as far as it would have alone, and cells no statement may change are unchanged |
| `EditDistance.LevenshteinDistance` | src/edit_distance.rs:8-29 | the table yields the least length of a script of single-character insertions, deletions and substitutions |
| `EditDistance.LevIsLeast` | src/edit_distance.rs:8-29 | some script has that length and none is shorter |
| `EditDistance.LevIsAMetric` | src/edit_distance.rs:8-29 | zero only on equal strings, symmetric, and the triangle inequality |
| `EditDistance.EditIsNear` | src/edit_distance.rs:19-27 | one edit anywhere in a string changes the distance to any other by at most one |
| `EditDistance.SuggestSimilar` | src/edit_distance.rs:34-53 | a name is suggested iff the given one has at least three bytes and some other is within distance two, and then the first of the closest |
| `CmdFix.DescendingIsStable` | src/cli.rs:3747-3750 | sorted by descending offset, equal offsets in their given order, nothing lost |
| `CmdFix.LargestExactlyIfCrowded` | src/cli.rs:3747-3763 | no choice of given edits without overlaps is larger than the kept one iff every dropped edit overlaps a kept one; a condition on the filter's result |
| `CmdFix.StrandedExactly` | src/cli.rs:3751-3763 | a dropped edit overlaps nothing kept iff it replaces something, what is kept at its own offset is there and replaces nothing, and it ends before any kept edit further right starts |
| `CmdFix.KeepIsLargest` | src/cli.rs:3751-3763 | the filter alone, from any bound, keeps a largest choice where what it drops overlaps what it keeps |
| `CmdFix.DropOverlaps` | src/cli.rs:3751-3763 | the filter loop computes the kept edits |
| `CmdFix.KeptAreApart` | src/cli.rs:3751-3763 | kept edits are given edits and no two overlap |
| `CmdFix.KeptAreMost` | src/cli.rs:3747-3763 | a condition on the input, sufficient only: the kept edits are a largest choice if no empty edit is listed before another edit at the same offset |
| `CmdFix.InsertionsCanLose` | src/cli.rs:3751-3763 | an empty edit listed before any other at its offset: the other is dropped although they do not overlap; listed the other way round, both are kept |
| `CmdFix.Rewrite` | src/cli.rs:3781-3795 | it aborts iff the offset and length of some edit lead past the source, and names the first one applied; it rewrites iff no range leaves the source or splits a character of it, and then in-place replacement from the right equals making all edits at once; otherwise it panics |
| `CmdFix.BoundariesStay` | src/cli.rs:3794-3794 | replacing a range moves no character boundary to its left |
| `CmdFix.Fix` | src/cli.rs:3741-3795 | the whole command on a text and its edits: a dry run lists the kept edits in source order, with line, column and the text from offset to offset plus length where that range can be read; a rewritten text is as much shorter as the kept edits take out and longer as they put in, and stays encoded text |
| `CmdFix.LineColumn` | src/lib.rs:60-75 | the line is one more than the newlines before the offset, the column one more than the characters between the last of them and the offset |
| `CmdFix.PlaceOfCharacter` | src/lib.rs:60-75 | in encoded text that is the number of newline characters, and of characters behind the last of them |
| `CmdFix.EndIsPast` | src/cli.rs:3754-3754 | the end of an edit is its offset plus its length, and saturation makes no difference within a string |
| `CmdFix.BoundaryIsBetween` | src/cli.rs:3795-3795 | the boundaries a range may have are the ends of the characters of the encoded text |
| `CmdFix.SpliceLength` | src/cli.rs:3781-3795 | making the edits takes out their lengths and puts in the lengths of their replacements |
| `CmdFix.SpliceIsText` | src/cli.rs:3781-3795 | replacing ranges of whole characters by encoded text leaves encoded text |
| `CmdFix.OneMoreEdit` | src/cli.rs:3794-3794 | replacing a range to the left of finished edits leaves their splice intact |
| `Utf8.DecodeIsInverse` | src/lexer.rs:1294-1298 | decoding succeeds with a character on exactly the bytes that encode it, as section 3 of RFC 3629 defines |
| `Utf8.EncodingKeepsOrder` | src/lexer.rs:1294-1298 | encodings are ordered, byte by byte, as the characters are, as section 1 of RFC 3629 says |
| `Utf8.EncodingExamples` | src/lexer.rs:1294-1298 | the encodings given as examples in section 7 of RFC 3629 |
| `StringLiterals.EscapeString` | src/formatter.rs:274-287 | the loop computes the escaped text |
| `StringLiterals.RoundTrip` | src/lexer.rs:265-273 | lexing a printed literal yields its string and consumes exactly its bytes, on the same line and one column per character, iff it is not the empty literal directly before a third quote |
| `StringLiterals.PrintedIsPlain` | src/formatter.rs:274-287 | a printed literal holds no line breaks and no tabs, and is the string itself iff it has no special characters |
| `StringForms.LiteralsAreRead` | src/lexer.rs:265-273 | over any text behind an opening quote: three quotes hand over to multi-line literals, else the literal has a form, and its token and the cursor behind it are those of the form |
| `StringForms.EveryTextHasForm` | src/lexer.rs:746-809 | every text is a sequence of plain characters, one-letter escapes from a table and hexadecimal escapes, up to a quote, the end, or one of six faulty escapes |
| `StringForms.ScanReadsForm` | src/lexer.rs:746-809 | the token is the meanings of the pieces, or the error of the ending; a newline starts a line, and other pieces take their columns |
| `StringForms.NamedExactly` | src/lexer.rs:752-790 | the one-letter escapes are exactly those of the table, NUL among them |
| `StringForms.ParseHexExactly` | src/lexer.rs:349-355 | braces hold a number iff they hold its digits to base sixteen, obtained by repeated division, in either case, behind any zeros and at most one plus sign |
| `StringLiterals.ScanReadsPrinted` | src/lexer.rs:746-809 | inside a literal, escaped text up to the closing quote is read back, after any text already read |
| `StringLiterals.ScanReadsChar` | src/lexer.rs:752-800 | one printed character, escaped or raw, is read back as itself |
| `StringLexer.Lexer.ConsumeCodepoint` | src/lexer.rs:1288-1302 | the cursor passes the announced number of bytes, or up to the end, and one column |
| `StringLexer.Lexer.ParseUnicodeEscape` | src/lexer.rs:336-356 | the braced escape: a scalar value, or the error the text deserves |
| `StringLexer.Lexer.EscapeSequence` | src/lexer.rs:752-797 | an escape's meaning or error, and the cursor behind it |
| `StringLexer.Lexer.StringBody` | src/lexer.rs:746-809 | the scanning loop yields the specified token and leaves the cursor behind the literal |
| `StringLexer.Lexer.QuoteToken` | src/lexer.rs:265-273 | two further quotes start a multi-line literal, anything else a plain one; the span starts at the quote |
| `StringLexer.Lexer.Advance` | src/lexer.rs:1331-1336 | one byte and one column |
| `StringLexer.Lexer.MatchChar` | src/lexer.rs:1363-1371 | moves on iff the next byte is the expected one |
| `Sorting.SortSorts` | src/effectchecker.rs:1595-1595 | the library sort orders its input |
| `Sorting.SortIsPermutation` | src/effectchecker.rs:1595-1595 | and keeps its elements |
| `Sorting.StringLeqIsLexicographic` | src/effectchecker.rs:1595-1595 | strings are ordered by their first difference, a prefix before the longer string |

## Left out

- Range and float patterns, coarse length classes of slice patterns on open collections, columns behind references, shared types, generic payloads and the rendering of witnesses.
- Usefulness.UncoveredMeans: with the shortcut on, takes columns that do not mislead; `Misleading.MisleadsExactly` shows that to be the exact condition for a query of wildcards.
- Usefulness.ShortcutAgrees: the same restriction, for the half that says the shortcut invents nothing.
- Exhaustive.DeletionKeepsVerdict: the same restriction, because it uses the verdict's exactness.
- Lowering.LowerIsOnto: takes declared fields with distinct names, as struct patterns tell fields apart by name.
- Exhaustive.VerdictIsRightExactly: the same, for the half that shows a false answer.
- Exhaustive.PairVerdictIsRightExactly: the same, for the half that shows a false answer.
- Exhaustive.RefutableIsRightExactly: the same, for the half that shows a false answer.
- Exhaustive.SparedIsRightExactly: the same, for the half that shows a false answer.
- Termination.EndsExactlyIfGrounded: takes types that meet no type without constructors; `Searching.EndsExactly` takes all types.
- Decisions.MatchesAreDecidedExactly: takes declared fields with distinct names, as the lines on `LowerIsOnto` and what uses it.
- Decisions.ArmsAreDecidedExactly: the same.
- Usefulness.CoveredMeans: takes typed rows and queries, as all results on matrices do; what the recursion says of ill-typed patterns, which the type checker reports, is not stated.
- `let`-`else`, match guards, closures, sink arguments, short-circuit operators and interpolated strings in control-flow graphs: they fork blocks that rejoin nothing, or record into blocks already forked.
- CfgBuilders.BuildCfg: deferred bodies with a `return`, a `?` or a jump out of themselves, also where the builder never lowers them.
- CfgTraces.PathsAreRuns: the same bodies.
- Which branch a condition takes: runs choose freely, as the graph does.
- Classification of uses by span: each use carries its kind and origin's position.
- CmdFix.Fix: reading and writing files, and messages.
- Lowering.LowerMatches: patterns that do not fit their type, which the source lowers as well, and `()` at a nested unit column.
- Lowering.LowerIsOk: the same patterns.
- Interleavings.InterleavingIsSafe: is relative to given footprints; extracting reads, writes and effects from statements, panics, the capture of locals by value at code generation and the reason strings are not modelled.
- The rest of the lexer, including multi-line literals, which the token dispatch hands over to; invalid UTF-8 inside a braced escape is reported as not hexadecimal, where the lexer, given validated text, would stop.
- Effect inference, ceilings and subtyping, the ownership checker, the parser and the type checker.
- Code generation, the interpreter, documentation and lint walkers, and the command dispatch.
