# BPG verification

BPG compiles a declarative process graph (nodes, conditional edges, modules) and runs it. This project models
the logic of its compiler, of its two run-time loops, of the `when` language, of the audit hash chain, of the
resumable node workflow and of document chunking, and proves what each of them is for. One file holds one module.

**Compilation.** `Graphs` fixes what a cycle and a topological order are; `TopologicalSort` (queue), `SpecV2` (heap)
and `CycleCheck` (depth-first) are the repository's three graph algorithms, each proved to succeed exactly on acyclic
graphs. `Modules` describes the module hierarchy and what its flat graph must contain, `Unfolding` counts out the flat
graph, `FlatOrder` says in which order, `FlatDependencies` proves that it has no cycle, that none of its paths is an
invention and that instances are met at their ends only, `Defects` lists what can be wrong with a document, and
`Compiler` is the validator, the inliner and the final sort over their mutable state. `Normalize` is the canonical
form taken before all that, `NormalForm` what one is read off its document, and `CanonicalCompile` shows that
documents which say the same compile to the same thing. `EndToEnd` shows that what the compiler returns is what the
run-time proofs assume.

**The `when` language.** `WhenLexer` holds the linter's and the evaluator's tokenizers, `WhenSyntax` the grammar as
trees, `WhenValues` the meaning of a tree, `WhenEvaluator` the linter's parser and the evaluator that computes while
it parses. `WhenLaws` says what each operator, function, literal and path does, on printed texts.

**The orchestrator.** `OrchestratorSpec` gives each step as a function of the run state, `Orchestrator` the loop that
mutates it, `OrchestratorInvariant` and `OrchestratorRuns` what holds in every run and how event replay fits,
`OrchestratorMeaning` what every status, input, output and log entry says wherever a run stands, `MergeLaws` what a
merged input holds, and `ScheduleIndependence` that completion order does not matter. The engine adapter's answers are
an arbitrary script.

**The linear runtime.** `LinearSpec` gives one node function's effect, `LinearRuntime` the node functions with their
shared cache, `LinearRuns` what holds of every run, `LinearMeaning` what each node's turn leaves behind and what is
reported, `Resume` what a re-execution repeats, `Reuse` which stored records it reuses, `Engine` the stored view of a
run, its first execution and its later ones, `ResumeWitnesses` two failed runs whose re-execution repeats less than
one would expect. A provider is an arbitrary function from node, input and attempt to an outcome.

**Audit.** `AuditChain` is one run's hash chain: verification, what a head hash binds, checkpoints. `AuditTampering`
is where verification finds each kind of change to a chain. `AuditLedger` is any number of workers inserting at once.
`Redaction` is what happens to payloads before they are stored. The digest is a parameter; where it matters, it is
only assumed not to collide on the documents the chains in question hash.

**Node workflow and chunking.** `NodeWorkflow` and `Chunking`. `Wrappers`, `Strings`, `Sorting` and `Json` are what
several modules share.

Where the code and its documentation disagree, the model follows the code:

- `_topological_sort` promises declaration order among ready nodes. It delivers the queue's order: sources in
  declaration order, then nodes in the order in which their last predecessor releases them (`FirstReadyFirst`).
- The evaluator's `||` and `&&` are strict: the right side is always evaluated and its error always escapes.
- The orchestrator does not stop at the first failure: a poll failure is followed by one more scheduling pass,
  and tasks in flight keep the status `running` in the final state.
- In the linear runtime a node whose input fails its type check fails without failing the run; the run is marked
  failed only at its end.
- `run` of the linear runtime announces a fallback to the first downstream node's input type when the trigger has
  none; no such fallback is coded.
- `step` of the engine announces that it dispatches the ready nodes; it executes the whole run again from the
  stored results.
- The validator's `_tokenize` and `_Parser` are no longer called; conditions go to the linter.
- An edge from `__input__` to an unknown node is rejected with a bare `KeyError`; the model counts it as rejected.

Three statements do not hold of the code as they stand. Each is stated with its exact condition and comes with an
input on which it fails:

- "Reordering the edges of a document never changes its canonical form": it does exactly when two different edges
  share source, target, condition and mapping (`Normalize.EdgeListOrder`); two edges that differ only in their
  timeout do (`Normalize.EdgeOrderCanShow`). The compiled graph and its order never show it
  (`CanonicalCompile.VariantsCompileAlike`).
- "A resumed node goes on with its original output": it goes on with the logged one, which is the original one
  exactly when redaction left it alone (`Resume.ResumedOutputIsTheLoggedOne`). In
  `ResumeWitnesses.MaskedOutputIsResumed` a run completes a node one of whose output fields is masked and then fails
  at another node; stepped again, it goes on with the masked output.
- "A node logged as completed is never called again": it is, exactly when what was logged for it is no dictionary
  (`Resume.CalledAgainIff`, and over all later executions `Resume.SilentForGoodIff`). In
  `ResumeWitnesses.EmptyOutputIsCalledAgain` a provider returns no output, which completes its node, and another node
  then fails the run; stepped again, the run calls the provider again.

A finished execution is followed by another only when it ended failed, so both of these need a failing node;
`ResumeWitnesses.TriggerAndStep` is how the engine's own operations come to such a second execution.

## Model

| member | source | states |
|---|---|---|
| Graphs.OrderedIsAcyclic | src/bpg/compiler/ir.py:154-168 | A graph all of whose edges point forward in a list of its nodes has no closed walk, self-loops and repeated edges included. |
| Graphs.StuckIsCyclic | src/bpg/compiler/ir.py:165-166 | If every node of a nonempty set has a predecessor in the set the graph has a cycle, so a sort that stops early is right to raise. |
| Graphs.AcyclicHasOrder | src/bpg/compiler/ir.py:129-168 | Every acyclic graph has a topological order. |
| KahnTables.BuildTables | src/bpg/compiler/ir.py:136-142 | The adjacency lists hold each node's successors in edge order, repeats included, and the in-degrees count incoming edges. |
| KahnTables.SuccessorsKeepOrder | src/bpg/compiler/ir.py:136-142 | A node's successors are the targets of its edges, each edge once and in edge order. |
| KahnTables.DrainNode | src/bpg/compiler/ir.py:155-157 | Emitting a node turns exactly its outgoing edges into decrements still to be made; all counters otherwise stay exact. |
| KahnTables.DrainedIsOrder | src/bpg/compiler/ir.py:165-168 | When nothing is left to emit, either all nodes were emitted and form a topological order, or the graph has a cycle. |
| TopologicalSort.InitialQueue | src/bpg/compiler/ir.py:144-151 | The queue starts with the nodes without incoming edges in declaration order. |
| TopologicalSort.SettleNode | src/bpg/compiler/ir.py:157-163 | Handling one node's successors releases exactly the nodes whose last predecessor it was, in edge order, at the end of the queue. |
| TopologicalSort.Sort | src/bpg/compiler/ir.py:129-168 | Succeeds if and only if the graph is acyclic; the result is a permutation of the nodes in which every edge points forward and nodes come in the order in which they became ready. |
| TopologicalSort.OrderIsDetermined | src/bpg/compiler/ir.py:129-168 | At most one topological order has the queue's readiness order: the sort is deterministic and its contract pins down its result. |
| SpecV2.PopSmallest | src/bpg/compiler/spec_v2.py:78-78 | The heap gives the smallest ready name. |
| SpecV2.SortedNames | src/bpg/compiler/spec_v2.py:80-80 | The same names with the same multiplicities, in order. |
| SpecV2.SortedNodeIds | src/bpg/compiler/spec_v2.py:63-93 | Succeeds if and only if the graph is acyclic; the result is a topological order that at every step takes the smallest available name. |
| SpecV2.SmallestFirstIsLeast | src/bpg/compiler/spec_v2.py:63-93 | The heap sort's result is the lexicographically least of all topological orders. |
| SpecV2.DeclarationOrderIsIrrelevant | src/bpg/compiler/spec_v2.py:63-93 | Two declarations of the same nodes and edges, in any order and with repeated edges, give the same result. |
| CycleCheck.Visitor.Visit | src/bpg/compiler/validator.py:509-518 | The recursive search fails only if there is a cycle; otherwise it restores its path and finishes the node and everything reachable from it. |
| CycleCheck.FinishedIsAcyclic | src/bpg/compiler/validator.py:506-522 | When every node has been finished after its successors the graph is acyclic. |
| CycleCheck.Accepts | src/bpg/compiler/validator.py:484-522 | The depth-first check accepts a graph if and only if it is acyclic, hence exactly when either Kahn sort succeeds. |
| Defects.ValidationIsExact | src/bpg/compiler/validator.py:449-522 | The document validates if and only if it has none of these defects, in its own graph or in any module: a node of unknown type, an edge or an exported output that names no node, a loop of edges; modules that instantiate each other in a circle; a trigger that is missing or led into; `__input__` outside a module. |
| Defects.PlainNodesArePrimitive | src/bpg/compiler/validator.py:449-474 | In a document without defects every flat node that is not an instance's end is declared, in the graph its path leads to, with a primitive type. |
| Compiler.ReferencesResolve | src/bpg/compiler/validator.py:449-498 | Accepts exactly the graphs whose node types, edge ends and outputs are declared; `Defects.ValidationIsExact` says this defect by defect. |
| Compiler.ValidateGraph | src/bpg/compiler/validator.py:426-522 | Accepts exactly the graphs whose references resolve and that have no cycle. |
| Compiler.ValidateTop | src/bpg/compiler/validator.py:476-507 | For the process graph also: the trigger exists, nothing leads into it, and `__input__` is not used. |
| Modules.DependenciesAre | src/bpg/compiler/validator.py:299-303 | The module-dependency graph has an edge exactly where one module instantiates another. |
| Compiler.Resolver.Resolve | src/bpg/compiler/validator.py:282-421 | Resolving a module resolves what it needs first and leaves earlier results in place; it fails only if some module graph is bad or modules depend on each other in a circle. |
| Compiler.ValidateModules | src/bpg/compiler/validator.py:271-423 | Succeeds if and only if module dependencies are acyclic and every module graph is well-formed and acyclic; the resolution order then ranks every instance above its definition. |
| Compiler.Inliner.AddOwnEdges | src/bpg/compiler/ir.py:274-358 | One instance's rewired edges and output edges are appended, every end already being a flat node. |
| Compiler.Inliner.InlineModule | src/bpg/compiler/ir.py:217-358 | Inlining an instance appends its entrance, its exit, everything inside and then its own edges, overwriting nothing made before. |
| Compiler.Inliner.InlineChildren | src/bpg/compiler/ir.py:251-263 | Nodes and edges of one graph are unfolded in declaration order, instances recursively. |
| Unfolding.FlatGraphUnfolds | src/bpg/compiler/ir.py:217-404 | The graph the inliner builds has exactly the nodes and edges of the hierarchy: one node per leaf, two per instance, one edge per edge or exported output at every level, and no node twice. |
| Unfolding.UnfoldingIsWellFormed | src/bpg/compiler/ir.py:322-357 | Every flat edge joins two flat nodes, so looking its ends up in final_nodes never fails. |
| Unfolding.RankingIrrelevant | src/bpg/compiler/ir.py:217-358 | The flat graph does not depend on the order in which modules were resolved. |
| FlatOrder.FlatGraphIsOrdered | src/bpg/compiler/ir.py:217-373 | The flat nodes are listed in declaration order, every instance where it is declared: its entrance, its exit, then what is inside it. The flat edges are those of all instances, each once, inner instances before outer ones and each instance's edges before its outputs, in the document's order. |
| FlatDependencies.EdgeRises | src/bpg/compiler/ir.py:265-358 | Every flat edge goes up in an order built from the topological orders of the hierarchy's graphs. |
| FlatDependencies.UnfoldingIsAcyclic | src/bpg/compiler/ir.py:217-410 | If every graph of the hierarchy and the module dependencies are acyclic, so is the flat graph. |
| FlatDependencies.BetweenIsInside | src/bpg/compiler/ir.py:217-358 | A flat node that lies, in that order, between two nodes of an instance belongs to the instance. |
| FlatDependencies.WalkProjects | src/bpg/compiler/ir.py:217-404 | Every path of the flat graph between two nodes of an instance stays inside the instance and projects to a path of the instance's own graph: inlining invents no dependency at any level. |
| FlatDependencies.EntranceProjects | src/bpg/compiler/ir.py:265-358 | A path from an instance's entrance to a node inside starts with an edge out of `__input__` and goes on as a path of the instance's own graph. |
| FlatDependencies.ExitProjects | src/bpg/compiler/ir.py:265-358 | A path from a node inside to the instance's exit is a path of the instance's own graph that ends at an exported output. |
| FlatDependencies.PassageProjects | src/bpg/compiler/ir.py:265-358 | A path through an instance, entrance to exit, is an exported `__input__`, or a path of its own graph from a target of `__input__` to an exported output. |
| FlatDependencies.InstancesAreEncapsulated | src/bpg/compiler/ir.py:265-358 | A flat edge into an instance leads to its entrance, and one out of it comes from its exit. |
| FlatDependencies.ConnectionsAreThere | src/bpg/compiler/ir.py:265-333 | Every edge of an instance's graph is in the flat graph, from the child's own or exit node, or the instance's entrance, to the other child's own or entrance node. |
| FlatDependencies.OutputsAreThere | src/bpg/compiler/ir.py:335-352 | Every exported output is connected to the instance's exit. |
| FlatDependencies.NothingElseIsConnected | src/bpg/compiler/ir.py:265-358 | Every flat edge is one of these. |
| Compiler.CompileProcess | src/bpg/compiler/ir.py:176-418 | Compilation fails if and only if the document has a defect; otherwise the flat graph is listed in document order, every plain node of it has a declared primitive type, the final sort cannot raise, and it returns every flattened node exactly once, in dependency and readiness order. |
| Compiler.CompilationIsDetermined | src/bpg/compiler/ir.py:176-418 | Flat graph and execution order are functions of the document. |
| EndToEnd.GroupIncoming | src/bpg/runtime/orchestrator.py:166-171 | The orchestrator's table of incoming edges holds each node's edges in order. |
| EndToEnd.IntoKeepsOrder | src/bpg/runtime/orchestrator.py:166-171 | A node's incoming edges are the edges that lead to it, each once and in the order of the resolved edges. |
| EndToEnd.NothingPrecedesTheTrigger | src/bpg/compiler/ir.py:405-409 | No flat edge leads into the node a run starts from, also when the trigger is a module instance. |
| EndToEnd.CompiledProcessRuns | src/bpg/runtime/orchestrator.py:166-171 | What compilation returns, with names that do not collide and its resolved edges grouped by target, meets everything the orchestrator's theorems assume of a process. |
| EndToEnd.CompiledChainRuns | src/bpg/runtime/langgraph_runtime.py:217-233 | The same for the linear runtime, whatever name paths use for the trigger. |
| EndToEnd.NewOrchestrator | src/bpg/runtime/orchestrator.py:166-171 | The constructor's grouping, run on a compiled process, yields such a table. |
| Sorting.SortIsStable | src/bpg/compiler/normalize.py:36-44 | The sort keeps the order of elements with equal keys. |
| Sorting.PermutationsSortAlike | src/bpg/compiler/normalize.py:36-44 | When equal keys mean equal elements, all orders of the input sort alike. |
| Normalize.NormalizeProcessDict | src/bpg/compiler/normalize.py:19-46 | The loops over sections and edges compute the normal form: sections defaulted and sorted, edges filtered, each with its mapping sorted, sorted by source, target, condition and mapping, then all keys sorted. |
| Normalize.CanonicalForm | src/bpg/compiler/normalize.py:11-16 | Two documents have the same key-sorted form if and only if they differ in key order only, at any depth; so sorting keys loses nothing. |
| Normalize.SortMappingIsIdempotent | src/bpg/compiler/normalize.py:11-16 | Sorting keys again changes nothing. |
| Normalize.FinalValues | src/bpg/compiler/normalize.py:19-46 | What normalization does to each top-level key, as a function of that key's canonical value alone. |
| NormalForm.NormalFormMeans | src/bpg/compiler/normalize.py:19-46 | In the normal form the keys of every mapping ascend; a missing section is an empty one; the edges are the document's, each once, in ascending order of source, target, condition and mapping text; every other key leads to the same content as before, and there are no other keys. |
| Normalize.EdgesStep | src/bpg/compiler/normalize.py:29-44 | Sorting edges by key and then canonicalizing them gives the sorted canonical edges: the sort key sees no key order. |
| Normalize.KeyOrderIsIrrelevant | src/bpg/compiler/normalize.py:19-46 | Documents that differ in key order only normalize to the same document. |
| Normalize.NormalizationIsIdempotent | src/bpg/compiler/normalize.py:19-46 | Normalizing a normalized document gives it back. |
| Normalize.EdgeListOrder | src/bpg/compiler/normalize.py:29-44 | Reordering the edge list never changes the normal form if and only if no two different edges share source, target, condition and mapping. |
| Normalize.EdgeOrderCanShow | src/bpg/compiler/normalize.py:29-44 | Two edges that differ only in their timeout normalize to different documents in the two orders. |
| CanonicalCompile.VariantsNormalizeAlike | src/bpg/compiler/normalize.py:19-46 | Mapping keys reordered at any depth and edges reordered give the same normal form, when source, target, condition and mapping tell edges apart. |
| CanonicalCompile.VariantsReadAlike | src/bpg/compiler/normalize.py:29-44 | Without that condition everything but the edges' other fields still is the same, including the order of the edges' sort keys. |
| CanonicalCompile.VariantsCompileAlike | src/bpg/compiler/ir.py:176-418 | So documents that differ in key order and edge order only compile to the same flat graph in the same execution order, in every case. |
| Sorting.SortedKeysAlike | src/bpg/compiler/normalize.py:36-44 | The sorted list of keys is the same for every order of the input, also when keys do not determine elements. |
| WhenLexer.LintTokens | src/bpg/compiler/expr_lint.py:62-80 | The match-at-position tokenizer returns the token sequence of the text, or fails where no token matches. |
| WhenLexer.NextMatch | src/bpg/runtime/expr.py:48-49 | The search form of the pattern finds the first position that matches and skips only positions that do not. |
| WhenLexer.EvalTokens | src/bpg/runtime/expr.py:45-58 | The search-based tokenizer returns the same tokens as the match-based one, or fails on the same texts. |
| WhenLexer.LexPrint | src/bpg/runtime/expr.py:45-58 | Printing tokens and reading them back gives the same tokens. |
| WhenLexer.LexSpread | src/bpg/runtime/expr.py:19-58 | Tokens are read back from any text that has them in order with any white space around them, and with none where the next character does not go on with the token. |
| WhenLexer.LexIsSpread | src/bpg/runtime/expr.py:19-58 | Conversely a text that is tokenized is its tokens in order, with nothing but white space before, between and after them. |
| WhenSyntax.ParseRecovers | src/bpg/runtime/expr.py:129-143 | Every syntax tree is recovered from its own tokens. |
| WhenSyntax.AcceptedIsPrinted | src/bpg/compiler/expr_lint.py:118-196 | A token sequence is accepted if and only if it is the print of a tree, and then of exactly one. |
| WhenEvaluator.Linter.Parse | src/bpg/compiler/expr_lint.py:118-126 | The recursive-descent linter accepts exactly the token sequences of the grammar. |
| WhenEvaluator.Linter.OrExpr | src/bpg/compiler/expr_lint.py:128-132 | Each parser method ends at the position the grammar gives, or rejects where the grammar does. |
| WhenEvaluator.Linter.Primary | src/bpg/compiler/expr_lint.py:155-196 | The same for primaries, function calls included. |
| WhenEvaluator.Lint | src/bpg/compiler/expr_lint.py:199-208 | Accepts exactly the non-empty texts that are one expression. |
| WhenEvaluator.ParsesWhen | src/bpg/compiler/validator.py:931-1059 | The validator's own tokenizer and parser accept exactly the texts the linter accepts. |
| WhenEvaluator.OrStrict | src/bpg/runtime/expr.py:191-197 | Once an operand of a chain of `||` has failed, the whole chain's meaning is that failure. |
| WhenEvaluator.Evaluator.OrExpr | src/bpg/runtime/expr.py:191-197 | The evaluator ends where the grammar ends and returns the strict meaning of the tree it never builds; what that meaning is, `WhenLaws.OrIsOr` says. |
| WhenEvaluator.Evaluator.Primary | src/bpg/runtime/expr.py:222-271 | The same for primaries: literals, paths, groups and the two functions. |
| WhenEvaluator.Evaluator.Evaluate | src/bpg/runtime/expr.py:184-189 | On a token sequence with a tree, the tree's value or the tree's error; on any other, an error. |
| WhenEvaluator.EvalWhen | src/bpg/runtime/expr.py:304-324 | On a linted text: the truth of the text's only tree, or that tree's own resolution or comparison error; on any other text an error. |
| WhenValues.PrintedTreeHolds | src/bpg/runtime/expr.py:304-324 | For every tree: its printed text is accepted, and evaluating that text gives the truth of the tree's meaning or the tree's own error. |
| WhenValues.LintedIsPrinted | src/bpg/compiler/expr_lint.py:199-208 | Every accepted text comes from a tree, and from only one. |
| WhenValues.OrFailsAtRuntime | src/bpg/runtime/expr.py:191-296 | A tree's meaning is never a syntax error. |
| WhenValues.HoldsDepends | src/bpg/runtime/expr.py:65-122 | A condition's truth depends only on the nodes its paths name. |
| WhenLaws.SpacingIsIrrelevant | src/bpg/runtime/expr.py:304-324 | Such a text evaluates as the plain print of its tokens does. |
| WhenLaws.OrIsOr | src/bpg/runtime/expr.py:191-197 | If two printed operands evaluate to x and y, the print of `l || r` evaluates to x or y; if either fails, so does the whole. |
| WhenLaws.AndIsAnd | src/bpg/runtime/expr.py:199-205 | The same for `&&` and x and y. |
| WhenLaws.NotIsNot | src/bpg/runtime/expr.py:207-211 | A printed `!n` evaluates to the negation of n. |
| WhenLaws.GroupIsTransparent | src/bpg/runtime/expr.py:229-234 | Parentheses change nothing. |
| WhenLaws.OrChainIsSome | src/bpg/runtime/expr.py:191-197 | A printed chain of `||`, of any length, is true if and only if one of its operands is, and fails if and only if one of them does. |
| WhenLaws.AndChainIsAll | src/bpg/runtime/expr.py:199-205 | A printed chain of `&&` is true if and only if all its operands are, and fails if and only if one of them does. |
| WhenLaws.NumbersCompare | src/bpg/runtime/expr.py:277-296 | The six comparisons of two numbers, booleans counting as 0 and 1, are those of their values. |
| WhenLaws.StringsCompare | src/bpg/runtime/expr.py:277-296 | Those of two strings are dictionary order by code point. |
| WhenLaws.ComparisonsAreTrichotomous | src/bpg/runtime/expr.py:277-296 | Of `<`, `==` and `>` exactly one holds between two numbers or two strings. |
| WhenLaws.EqualityMeans | src/bpg/runtime/expr.py:280-283 | Any two values are equal if and only if they are the same once booleans are taken for numbers, at any depth. |
| WhenLaws.ListsCompareAt | src/bpg/runtime/expr.py:284-291 | Lists are ordered as their first differing items are, errors included. |
| WhenLaws.ListsComparePrefix | src/bpg/runtime/expr.py:284-291 | Where one list only goes on longer than the other, their lengths decide. |
| WhenLaws.KindsDoNotMix | src/bpg/runtime/expr.py:277-296 | A number and a string, and null and anything else, are unequal, and ordering them is an error. |
| WhenLaws.FunctionsTellNull | src/bpg/runtime/expr.py:257-270 | `is_null` and `is_present` tell null from everything else. |
| WhenLaws.LiteralsMean | src/bpg/runtime/expr.py:236-255 | Quoted texts, `true`, `false` and `null` stand for what they spell. |
| WhenLaws.WholeNumbersMean | src/bpg/runtime/expr.py:244-246 | The decimal text of a number stands for that number. |
| WhenLaws.FractionsMean | src/bpg/runtime/expr.py:241-243 | So does a decimal text with a fraction. |
| WhenLaws.OutputPaths | src/bpg/runtime/expr.py:112-124 | `node.out` is the node's output, and an error when there is none yet. |
| WhenLaws.TriggerPaths | src/bpg/runtime/expr.py:97-118 | `trigger.in` is the trigger input and `trigger.out` the output of the node that is the trigger. |
| WhenLaws.LongerPaths | src/bpg/runtime/expr.py:118-124 | One more field leads from a dictionary to the field's value or null, and from anything else to an error. |
| WhenLaws.PathsAreWritten | src/bpg/runtime/expr.py:35-35 | Every dotted path of names that is no keyword can stand as an operand of an expression. |
| WhenLaws.OtherPathsFail | src/bpg/runtime/expr.py:87-122 | Paths of fewer than two parts, and with any other segment than `out` or the trigger's `in`, fail. |
| WhenLaws.ValuesAreTruthy | src/bpg/runtime/expr.py:324-324 | A single operand is true unless it is null, false, zero or empty. |
| Json.PyEqIs | src/bpg/runtime/orchestrator.py:341-341 | Python's equality of JSON values is identity once booleans are taken for numbers, at any depth; so it is an equivalence. |
| Orchestrator.FiringEdges | src/bpg/runtime/orchestrator.py:317-323 | The edges whose source completed and whose condition holds, in order, or the escaping exception. |
| Orchestrator.ResolveMapping | src/bpg/runtime/expr.py:361-386 | All values of one mapping, or the escaping exception. |
| Orchestrator.MergeInputs | src/bpg/runtime/orchestrator.py:337-357 | Equal values for a field merge, unequal ones conflict, and an unresolvable reference raises, whichever comes first; what the merged input then holds, `MergeLaws.MergeMeans` says. |
| MergeLaws.MergeMeans | src/bpg/runtime/orchestrator.py:337-357 | A merged input has a value for exactly the fields the firing edges map; every entry of every edge resolves to a value equal to the field's, which is the last entry's own. |
| MergeLaws.MergeFailsIff | src/bpg/runtime/orchestrator.py:337-357 | Merging reports a conflict if and only if, edge by edge, it first meets two entries for one field with unequal values, and raises if and only if it first meets an entry that does not resolve. |
| Orchestrator.BpgOrchestrator.Decide | src/bpg/runtime/orchestrator.py:297-395 | Not ready, skipped, failed, raising, or to be started on one input. |
| Orchestrator.BpgOrchestrator.ScheduleIfReady | src/bpg/runtime/orchestrator.py:297-433 | The new state is the scheduling step of the old one; progress is reported exactly when the state changed. |
| Orchestrator.BpgOrchestrator.PollOne | src/bpg/runtime/orchestrator.py:209-268 | The same for one poll: completion, failure, deadline, or an escaping exception. |
| Orchestrator.BpgOrchestrator.Loop | src/bpg/runtime/orchestrator.py:186-277 | The while loop, under any script of answers, computes the run of the step functions. |
| OrchestratorInvariant.ScheduleKeeps | src/bpg/runtime/orchestrator.py:297-433 | Scheduling keeps the invariant, touches nothing settled and moves a pending node by lowering 2*pending + inflight by one or two. |
| OrchestratorInvariant.PollKeeps | src/bpg/runtime/orchestrator.py:209-268 | So does polling, which lowers the measure by one whenever a task answers. |
| OrchestratorInvariant.NothingStranded | src/bpg/runtime/orchestrator.py:270-274 | With nothing in flight and something pending, a scheduling pass always changes the state: the final break strands no node. |
| OrchestratorRuns.SweepIsComplete | src/bpg/runtime/orchestrator.py:192-204 | One scheduling pass in topological order leaves nothing to schedule: every node still pending depends on one that has not settled. |
| OrchestratorRuns.PassKeeps | src/bpg/runtime/orchestrator.py:189-274 | One pass of the loop keeps the invariant and never undoes or restarts anything. |
| OrchestratorRuns.EndsEmpty | src/bpg/runtime/orchestrator.py:189-274 | The loop ends with nothing pending and nothing in flight, unless the run failed. |
| OrchestratorRuns.RunKeeps | src/bpg/runtime/orchestrator.py:189-274 | In every run: each node is started at most once, a terminal status never changes, and a finished run is failed or empty. |
| OrchestratorRuns.ReportIsTrue | src/bpg/runtime/orchestrator.py:276-277 | A finished run is reported completed if and only if every node completed or was skipped, and failed if and only if some node failed or timed out. |
| OrchestratorMeaning.StatusesMean | src/bpg/runtime/orchestrator.py:186-433 | Wherever a run stands or ends: a started node was given the trigger input, or what the mappings of its firing edges merge to, which fits its type; a completed node has the output some poll of it delivered; a failed or timed-out one was polled so; a node that failed without being started could not be; a skipped one is reached by no edge; the log holds every node's history and nothing else. A run aborts only where a condition, a mapping, a start, a poll or an output is in error. |
| OrchestratorMeaning.SkippedIff | src/bpg/runtime/orchestrator.py:317-335 | A node that has a status is skipped if and only if it is not the trigger, edges lead to it, and none of them has a completed source and an absent or true condition. |
| OrchestratorRuns.FailureEndsTheRun | src/bpg/runtime/orchestrator.py:186-207 | A run that has failed makes at most one more scheduling pass: nothing is polled, no status changes, and it does not go on. |
| OrchestratorMeaning.UnstartableEndsTheRun | src/bpg/runtime/orchestrator.py:206-207 | While a run goes on only started tasks have failed: a node that cannot be started ends the run in the same pass. |
| OrchestratorRuns.BusyPassesAreBounded | src/bpg/runtime/orchestrator.py:189-274 | The number of passes that make progress is at most 2*pending + inflight, whatever the adapter answers. |
| OrchestratorRuns.AnsweringTerminates | src/bpg/runtime/orchestrator.py:189-274 | If every poll answers, the loop ends within that many passes. |
| OrchestratorRuns.ReplayIsExact | src/bpg/runtime/events.py:313-345 | Wherever a run from the start has got to or ends, under every script of answers, replaying its execution log rebuilds the node statuses exactly. |
| OrchestratorRuns.ReplayIsExactInPasses | src/bpg/runtime/events.py:313-345 | The same after every single scheduling and polling step of the next pass, also of one that is going to abort. |
| OrchestratorRuns.DerivedStatusIs | src/bpg/runtime/events.py:340-352 | The status derived by replay is failed exactly when the run has failed, and completed exactly when nothing is in flight, nothing has failed and something has settled: before the end it can be ahead of the run. |
| OrchestratorRuns.ReplayedReport | src/bpg/runtime/events.py:340-352 | At the end, the run status derived by replay is the one the run returns. |
| ScheduleIndependence.SameReadiness | src/bpg/runtime/orchestrator.py:297-395 | A pending node whose sources have settled is decided exactly as in the one-by-one evaluation, whatever else has or has not finished. |
| ScheduleIndependence.CompletionOrderIsIrrelevant | src/bpg/runtime/orchestrator.py:186-277 | Assume that conditions and mappings read only ancestors and trigger input, and that what a task delivers depends only on its node and the input it was started on. Then under every completion order each task is started on the input it has when the nodes are evaluated one by one in topological order; a run is reported completed exactly when that evaluation is clean, and then has started the same tasks and has the same statuses and outputs; a run aborts only if that evaluation raises somewhere. |
| ScheduleIndependence.ReferenceAnswersAreDeterministic | src/bpg/runtime/orchestrator.py:209-268 | In particular this covers every script that gives each node, at any time, the answer to its input in the one-by-one evaluation. |
| LinearRuntime.CollectFiring | src/bpg/runtime/langgraph_runtime.py:573-594 | The firing edges in order; a condition that raises does not fire. |
| LinearRuntime.Escalate | src/bpg/runtime/langgraph_runtime.py:276-297 | The routes of the policy rules that match node, event and attempts, later rules overwriting earlier ones. |
| LinearRuntime.ReactToFailure | src/bpg/runtime/langgraph_runtime.py:1164-1187 | The routes the firing edges' failure actions open, and whether one of them forces failure. |
| LinearRuntime.LangGraphRuntime.Attempts | src/bpg/runtime/langgraph_runtime.py:974-1072 | The retry loop makes exactly the attempts up to the first decisive one, at most the allowed number, and calls the provider once for each. |
| LinearRuntime.LangGraphRuntime.Invoke | src/bpg/runtime/langgraph_runtime.py:937-1320 | The update, the calls and the cached result after a timeout, an error or an output. |
| LinearRuntime.LangGraphRuntime.NodeFn | src/bpg/runtime/langgraph_runtime.py:482-1320 | One node function: skipped, cancelled, passed through, failed, answered from the cache or called, with cache and calls updated accordingly; when it does which, `LinearMeaning.NodesMean` says. |
| LinearRuntime.LangGraphRuntime.Run | src/bpg/runtime/langgraph_runtime.py:1328-1415 | The chain of node functions; no result when the trigger input is rejected or a mapping raises, otherwise the state after the last node with the run status that `LinearMeaning.ReportMeans` describes. |
| LinearSpec.AttemptsUsed | src/bpg/runtime/langgraph_runtime.py:979-1072 | The number of attempts: all before the last are retryable errors, and the last is decisive or the last allowed. |
| LinearRuns.EscalationsNeedRule | src/bpg/runtime/langgraph_runtime.py:276-297 | A node has escalation routes if and only if some rule of the policy covers it. |
| LinearRuns.VisitIsSound | src/bpg/runtime/langgraph_runtime.py:482-1320 | What every visit keeps: an output exactly for completed nodes, cancelled nodes cancel the run, unescalated timeouts fail it, and only nodes brought to life while the run is going are called, cached or open routes. |
| LinearRuns.RunKeeps | src/bpg/runtime/langgraph_runtime.py:506-1320 | After i nodes exactly the first i have a status and a log entry, in chain order; the nodes with an output are the completed ones; skipped nodes were not called. |
| LinearRuns.EndedRunIsFrozen | src/bpg/runtime/langgraph_runtime.py:506-547 | Once the run has failed or been cancelled no exception escapes, every later node is skipped (or cancelled), and no provider is called, nothing is cached, and outputs, routes and run status stay. |
| LinearRuns.CompletedRunIsRecovered | src/bpg/runtime/langgraph_runtime.py:1404-1414 | A run that ends completed has no cancelled node; every failed node opened a failure route when it was visited, which is there at the end, and every timed-out node has a policy rule that escalated it. |
| LinearRuns.CancelledNodesCancelTheRun | src/bpg/runtime/langgraph_runtime.py:1405-1406 | The final check for cancelled nodes never fires: such a run was already cancelled. |
| LinearRuns.LiveNodesAreCaused | src/bpg/runtime/langgraph_runtime.py:563-613 | Every node that comes to life has a chain of fired edges and failure routes leading to it from the trigger. |
| LinearRuns.CalledNodesAreCaused | src/bpg/runtime/langgraph_runtime.py:563-1072 | Every provider call happened while the run was going, at a node with such a chain. |
| LinearRuns.CallsAreBounded | src/bpg/runtime/langgraph_runtime.py:979-1072 | A node's provider is called at most max_attempts times per run. |
| LinearMeaning.NodesMean | src/bpg/runtime/langgraph_runtime.py:482-1320 | What each node's turn leaves while the run is going, in terms of the edges into it, the routes opened so far, its types, the cache and the provider's attempts: its status, output, log entry, key, routes, attempts, cached result and the run's status. |
| LinearMeaning.SkippedIff | src/bpg/runtime/langgraph_runtime.py:596-613 | A node whose turn comes while the run is going is skipped if and only if it is not the trigger, no failure route leads to it, and no edge into it has a completed source and a guard that is absent or true. |
| LinearMeaning.StopsIff | src/bpg/runtime/langgraph_runtime.py:482-1320 | The run gets past a node unless, while it is going, an entry of a firing edge's mapping does not resolve. |
| LinearMeaning.RoutesMean | src/bpg/runtime/langgraph_runtime.py:1164-1187 | The routes a failure opens are those its firing edges' actions and the policy's rules name, and no others, each with the input or a notice of the failure; a forcing edge shuts the policy out. |
| LinearMeaning.CleanRunCompletes | src/bpg/runtime/langgraph_runtime.py:1404-1414 | A run in which no mappings clash, all inputs are accepted, no node that gets one is blocked, and all attempts deliver outputs that fit, completes or skips every node and is reported completed. |
| LinearMeaning.ReportMeans | src/bpg/runtime/langgraph_runtime.py:1404-1414 | A run is reported cancelled if and only if some node's turn cancelled it, completed if and only if it went on to the end and every failed node opened a way to recover, and failed otherwise. |
| Resume.PersistLog | src/bpg/state/store.py:460-470 | Storing a log entry lays its fields over those stored for the node before. |
| Resume.CachedResults | src/bpg/runtime/engine.py:137-145 | The cache holds exactly the outputs of completed records with a key and a dictionary, whatever order the records are listed in. |
| Resume.CacheIsDetermined | src/bpg/runtime/engine.py:137-145 | Two caches that both hold what the records call for are equal, so the order in which records are listed cannot matter. |
| Reuse.ReusedIff | src/bpg/runtime/engine.py:137-145 | An execution answers a node without calling its provider if and only if the node's own record is completed, has the key of the input it is now run on and a dictionary for an output; that dictionary is then its output. |
| Resume.RecordOf | src/bpg/runtime/engine.py:177-187 | After a run is stored, a node's record is its log entry laid over the older record. |
| Reuse.RecordsMean | src/bpg/state/store.py:460-470 | After any log has been stored, exactly the nodes logged or recorded before have a record; it has the status the node was last logged with and the last key and the last output it was ever stored with. |
| Resume.VisitIsReplayed | src/bpg/runtime/langgraph_runtime.py:893-937 | With its record in the cache, a settled node visited again in the same state gives the logged result without a provider call. |
| Resume.PrefixIsReproduced | src/bpg/runtime/engine.py:112-187 | Over a settled, unredacted prefix of the chain the re-execution goes through the same run states and calls no provider. |
| Resume.SettledNodesAreNotRepeated | src/bpg/runtime/engine.py:112-187 | Every node of the settled prefix ends with the same status, output and log entry, and its provider is not called in the whole re-execution, whatever providers would now answer. |
| Resume.ResumedOutputIsTheLoggedOne | src/bpg/runtime/langgraph_runtime.py:447-480 | The first redacted node is resumed with its logged output, which is the original one exactly when redaction left it alone. |
| ResumeWitnesses.MaskedOutputIsResumed | src/bpg/runtime/langgraph_runtime.py:447-480 | A run that completes one node with a masked field and fails at the next is re-executed with another output than it had. |
| Resume.CalledAgainIff | src/bpg/runtime/engine.py:137-145 | After a settled prefix, the next node logged as completed has its provider called again if and only if what was logged for it is not a dictionary. |
| Resume.PrefixIsSilentIff | src/bpg/runtime/engine.py:137-145 | A prefix of nodes that completed or were skipped is repeated without a provider call if and only if every completed one, the trigger aside, logged a dictionary. |
| ResumeWitnesses.EmptyOutputIsCalledAgain | src/bpg/runtime/langgraph_runtime.py:1244-1310 | A run in which a provider returns no output, completing its node, and another node fails, calls that provider again when it is re-executed. |
| Resume.SettledForGood | src/bpg/runtime/engine.py:112-187 | Over any number of re-executions under one run id, a settled prefix stays settled with the same results and is never called again. |
| Resume.SilentForGoodIff | src/bpg/runtime/engine.py:112-187 | Over any number of re-executions, nodes that completed or were skipped are never called again if and only if every completed one of them logged a dictionary. |
| Engine.Engine.ExecuteRun | src/bpg/runtime/engine.py:137-189 | An execution finishes exactly when the trigger input is accepted and no exception escapes; it then starts from the stored records and lays its log over them; one that raises stores nothing. |
| Engine.Engine.Trigger | src/bpg/runtime/engine.py:60-102 | The first execution of a run starts from no records and an empty cache. |
| Engine.Engine.Step | src/bpg/runtime/engine.py:104-135 | Completed and cancelled runs are left alone; any other run is executed again, so only failed executions are ever repeated. |
| Engine.SettledStaysSettled | src/bpg/runtime/engine.py:104-189 | Whatever triggering and stepping led here: once an execution has settled a prefix of the chain, every later execution of the run gives its nodes the same results and never calls their providers. |
| Engine.SilentIff | src/bpg/runtime/engine.py:104-189 | And nodes an execution completed or skipped are never called by a later step if and only if each completed one logged a dictionary. |
| ResumeWitnesses.TriggerAndStep | src/bpg/runtime/engine.py:60-135 | Triggering the witness process and stepping it gives exactly the two executions the witnesses speak about, the first of them failed. |
| AuditChain.HashedFieldsDetermine | src/bpg/audit/postgres.py:300-324 | The hashed document is the same for two rows if and only if they agree on every hashed column. |
| AuditChain.SortAscends | src/bpg/audit/postgres.py:425-425 | With distinct sequence ids the sort by sequence id is strictly ascending and keeps exactly the given rows. |
| AuditChain.VerifyChain | src/bpg/audit/postgres.py:417-558 | Verification succeeds exactly when every row is intact, in one chain, and names its predecessor's hash; a checkpoint that is not signed, or lacks a required anchor, is refused as such; any other failure names the first row that does not verify and the first check it fails. |
| AuditChain.HeadBindsChain | src/bpg/audit/postgres.py:425-558 | Two verified chains with the same head hash have the same length and agree row by row on every hashed column and on the payload, if the digest does not collide on their documents. |
| AuditChain.OnlyHashedColumnsMatter | src/bpg/audit/postgres.py:300-324 | Conversely, a chain that agrees with a verified one on hashed columns, hashes and payloads verifies with the same head; the actor's type is not protected. |
| AuditTampering.VerifiedIsOneChain | src/bpg/audit/postgres.py:488-539 | In a chain that verifies every row has the first row's scope and id, its payload's digest and its own hash, and names the hash of the row before it. |
| AuditTampering.AlteredPayloadIsFound | src/bpg/audit/postgres.py:512-524 | A payload replaced by one with another digest is found at its row. |
| AuditTampering.AlteredColumnIsFound | src/bpg/audit/postgres.py:526-538 | So is any other change to a hashed column. |
| AuditTampering.ForeignRowIsFound | src/bpg/audit/postgres.py:489-498 | A row of another chain is found where it is put. |
| AuditTampering.UnlinkedRowIsFound | src/bpg/audit/postgres.py:499-510 | A row that does not name the hash of the row it is put behind is found there. |
| AuditTampering.RemovedRowIsFound | src/bpg/audit/postgres.py:499-510 | A row that was removed is found at its successor. |
| AuditTampering.FoundOnce | src/bpg/audit/postgres.py:488-547 | Verification has one first fault to report, and none in a chain that verifies. |
| AuditChain.LinksSplit | src/bpg/audit/postgres.py:425-558 | A chain is intact if and only if its part up to a row is and the rest continues from that row's hash. |
| AuditChain.CheckpointsCompose | src/bpg/audit/postgres.py:858-878 | For a checkpoint at any row, the full chain verifies if and only if the rows up to it verify and the full chain verifies from the checkpoint. |
| AuditLedger.RecordIsIntact | src/bpg/audit/postgres.py:370-408 | A freshly built record passes every check against the hash it was built on; that it records its event, `AuditLedger.CommitRecords` says. |
| AuditLedger.CommitRecords | src/bpg/audit/postgres.py:370-408 | Committing adds exactly one row: it has the event's run, identity, columns and payload, the payload's digest, the number drawn and the head read. |
| AuditLedger.RowsRecordEvents | src/bpg/audit/postgres.py:659-725 | In every state of every interleaving, every stored row so records an event that some worker's transaction began with before. |
| AuditLedger.OtherStepsAddNothing | src/bpg/audit/postgres.py:659-725 | No other step touches the table. |
| AuditLedger.NewEventCanBeInserted | src/bpg/audit/postgres.py:659-720 | With its run's lock free an idle worker can insert any event that is not stored yet, which adds its row under the next number and leaves everything else as it was. |
| AuditLedger.StoredEventIsNotInserted | src/bpg/audit/postgres.py:721-725 | A transaction that has read its head commits only an event that is not stored, and rejects only one that is. |
| AuditLedger.OneWriterPerRun | src/bpg/audit/postgres.py:672-678 | Two transactions past the advisory lock never work on the same run. |
| AuditLedger.StepKeepsSafety | src/bpg/audit/postgres.py:659-725 | Every step of every worker keeps locks, sequence numbers, heads read and all chains consistent, rollbacks and rejected duplicates included. |
| AuditLedger.TraceIsSafe | src/bpg/audit/postgres.py:659-725 | So does every interleaving from the empty table. |
| AuditLedger.EveryRunVerifies | src/bpg/audit/postgres.py:807-840 | In every state of every interleaving each run's rows verify, have strictly increasing sequence ids in link order, and no event is stored twice. |
| AuditLedger.CheckpointsStayValid | src/bpg/audit/postgres.py:842-878 | A checkpoint over a run's head, taken at any moment, verifies against that run at every later moment. |
| Redaction.RedactPayload | src/bpg/audit/policy.py:216-231 | Sensitive keys first, then the configured paths in order; a path is reported exactly when it finds something, and the reported places of sensitive keys are the outermost ones of the input that are still there. |
| Redaction.RedactionHides | src/bpg/audit/policy.py:216-309 | Afterwards every value under a sensitive key, at any depth, and every value at a configured path is the redaction mark. |
| Redaction.RedactionIsIdempotent | src/bpg/audit/policy.py:216-309 | Redacting a redacted payload changes nothing. |
| Redaction.RedactionOnlyMasks | src/bpg/audit/policy.py:216-309 | Nothing else changes: keys, lists and all other values stay. |
| Redaction.LeavesMean | src/bpg/audit/policy.py:216-309 | A leaf of the payload is exactly as it was if no key above it names a secret, in whatever case, and no configured path leads to it or above it; every other leaf is masked, or gone with a mark above it. |
| Redaction.UnmatchedIsUntouched | src/bpg/audit/policy.py:295-309 | A path that finds nothing leaves the payload alone, and there is nothing at it. |
| Redaction.ReportedPlaces | src/bpg/audit/policy.py:259-278 | Looking for marks in the redacted payload finds exactly the outermost sensitive keys of the original one, except where a configured path has redacted something above them. |
| NodeWorkflow.BlobStore.PutJson | packages/bpg-langgraph/src/bpg_langgraph/contract.py:81-93 | A payload is stored under a fresh key and nothing else changes. |
| NodeWorkflow.LangGraphNodeWorkflow.SaveCheckpoint | packages/bpg-temporal/src/bpg_temporal/runtime.py:121-148 | The checkpoint stands for the given state, inline or in the blob store by size, and every earlier checkpoint stands for its own state. |
| NodeWorkflow.LangGraphNodeWorkflow.Drive | packages/bpg-temporal/src/bpg_temporal/runtime.py:80-119 | The loop takes exactly the steps of the uninterrupted run up to completion or its budget (at least one), and otherwise leaves a checkpoint at the exact point it stopped. |
| NodeWorkflow.LangGraphNodeWorkflow.Run | packages/bpg-temporal/src/bpg_temporal/runtime.py:46-58 | A run starts at step 0 from the input; unfinished, it has called the behaviour exactly as often as its budget says, at least once. |
| NodeWorkflow.LangGraphNodeWorkflow.Resume | packages/bpg-temporal/src/bpg_temporal/runtime.py:60-78 | A resume continues from the checkpoint's state and step, or refuses an unknown checkpoint or another run's. |
| NodeWorkflow.StepsCompose | packages/bpg-temporal/src/bpg_temporal/runtime.py:80-119 | k steps and then m steps are k + m steps. |
| NodeWorkflow.StepsAreCalls | packages/bpg-temporal/src/bpg_temporal/runtime.py:80-119 | Up to k steps are up to k calls of the behaviour under consecutive indices, each on the state the call before returned, none after one that completes; they end in the last call's state and, if it completed, with its output. |
| NodeWorkflow.SegmentsAreOneRun | packages/bpg-temporal/src/bpg_temporal/runtime.py:46-119 | A run cut into segments by any budgets stands where the uninterrupted run stands after as many steps. |
| NodeWorkflow.CuttingIsInvisible | packages/bpg-temporal/src/bpg_temporal/runtime.py:46-119 | For a behaviour that completes after n steps, every cutting with enough budget gives the same final state, output and step count; any other stops exactly at its budget. |
| NodeWorkflow.RunInSegments | packages/bpg-temporal/src/bpg_temporal/runtime.py:46-119 | The operations themselves, run and then resumed under any budgets, realise this and call the behaviour once for every step index. |
| Chunking.AppendChunks | packages/bpg-nodes-core/src/bpg_nodes_core/__init__.py:388-406 | The inner loop appends one document's windows, numbered on from the chunks before. |
| Chunking.MarkdownChunk | packages/bpg-nodes-core/src/bpg_nodes_core/__init__.py:359-406 | The chunks of all documents in order, or the error for a bad document list, size or overlap, in the order the checks are made. |
| Chunking.RebuildIsText | packages/bpg-nodes-core/src/bpg_nodes_core/__init__.py:386-404 | The first chunk followed by every later chunk without its first `overlap` characters is the document. |
| Chunking.ChunkCount | packages/bpg-nodes-core/src/bpg_nodes_core/__init__.py:386-404 | A text of length n gives 0, 1 or 1 + ceil((n - size) / (size - overlap)) chunks. |
| Chunking.WindowsAreFull | packages/bpg-nodes-core/src/bpg_nodes_core/__init__.py:386-404 | Chunk i begins i strides into the text, every chunk but the last has full size, and every later chunk goes beyond its overlap. |
| Chunking.OrdinalsAreGapFree | packages/bpg-nodes-core/src/bpg_nodes_core/__init__.py:390-402 | Ordinals count the chunks across documents without gaps. |
| Chunking.DocumentsAreRebuilt | packages/bpg-nodes-core/src/bpg_nodes_core/__init__.py:377-406 | Each document occupies one contiguous run of chunks with its source, path and metadata, from which it can be rebuilt. |
| Chunking.OthersAreSkipped | packages/bpg-nodes-core/src/bpg_nodes_core/__init__.py:379-385 | Entries that are no documents, or have no text, add no chunk and take no ordinal. |
| Chunking.ChunkIdsAreDistinct | packages/bpg-nodes-core/src/bpg_nodes_core/__init__.py:392-396 | No two chunks share an id, whatever the source ids contain. |

## Left out

- Compiler: flat names are kept as structured paths, so the generated `a__b____in__` strings are assumed not to collide, and no key to be both a node type and a module.
- Compiler.CompileProcess: field types, input coverage, mapping references, provider configuration, policies and human-node contracts can also make the validator reject a process; they look at one node, edge or type at a time and are not modelled.
- Compiler.Resolver.Resolve: the types of a module's inputs and the fields of its outputs are not checked.
- Compiler.ValidateModules: the types of a module's inputs and the fields of its outputs are not checked.
- Compiler.Inliner.AddOwnEdges: rewriting of mappings and conditions is not modelled; the theorems are about nodes, edges and paths.
- Compiler.Inliner.InlineModule: rewriting of mappings and conditions is not modelled; the theorems are about nodes, edges and paths.
- Compiler: `process.nodes` and module dictionaries are sequences with distinct keys; YAML loading and model validation come before.
- EndToEnd.CompiledProcessRuns: what a resolved edge carries besides its ends is arbitrary, since rewriting of mappings and conditions is not modelled.
- CanonicalCompile.VariantsCompileAlike: reading a process off the normal form is a parameter that sees everything but the fields of edges that are not sort keys (timeouts and failure actions), which have no part in the graph.
- Normalize.NormalizeProcessDict: edge endpoints and conditions are texts, as in a document dumped from a process model; with others Python's sort compares values of different types and may raise. Keys are strings, and `json.dumps` is some function of the canonical form.
- WhenLexer.LintTokens: token classes are ASCII (letters, digits, white space); Unicode letters and digits are not modelled.
- WhenLexer.EvalTokens: token classes are ASCII (letters, digits, white space); Unicode letters and digits are not modelled.
- WhenEvaluator.Lint: error codes, messages and columns are not modelled.
- WhenEvaluator.ParsesWhen: the validator's own parser is modelled by the linter's class, as the two read the same grammar in the same way; that they agree on tokens is therefore by construction, and only the agreement of their tokenizers is proved.
- WhenValues.PrintedTreeHolds: numbers are exact reals, so int and float are one type and floating-point rounding is not modelled.
- Orchestrator.ResolveMapping: a mapping value is a constant or a dotted reference; `{{...}}` interpolation and coercion of literals are not modelled.
- Orchestrator.BpgOrchestrator.ScheduleIfReady: idempotency keys, timestamps and payloads in log entries are not modelled; input types are checked for required and unknown fields only, as that loop does.
- Orchestrator.BpgOrchestrator.ScheduleIfReady: `start_node` is taken to return a non-empty task identifier; with an empty one the loop would leave the node running and never poll it.
- Orchestrator.BpgOrchestrator.Loop: resolving the process output from the final state, which can raise after the loop, is not modelled.
- Orchestrator.BpgOrchestrator.PollOne: a passed deadline is one of the adapter's possible answers; clocks and sleeping are not modelled.
- ScheduleIndependence.CompletionOrderIsIrrelevant: no deadline passes and no poll raises; otherwise the outcome depends on time.
- LinearRuntime.LangGraphRuntime.NodeFn: access control, separation of duties and a missing provider are one set of blocked nodes, since all of them fail the node and the run alike and depend only on the trigger input; redaction is an arbitrary function of node and value; events sent to the sink, delays between attempts and timeouts' lengths are not modelled.
- LinearRuntime.LangGraphRuntime.Run: the process output computed from the final state is not modelled, and neither is `cancel_run` between two nodes.
- LinearRuntime.LangGraphRuntime.Attempts: cancellation from another thread is an attempt that ends with the error code `cancelled`.
- Resume.SettledForGood: keys of different nodes are assumed never to coincide, and the files of the state store are a map from node names to records.
- Resume.SilentForGoodIff: keys of different nodes are assumed never to coincide, and the nodes of the prefix have no redaction rule that changes a value.
- Engine.Engine.ExecuteRun: run, artifact and event records other than node records and the run status are not modelled.
- AuditChain.VerifyChain: SHA-256, HMAC signatures and timestamp formatting are not modelled; the signature check is an input, and a digest is any function of a JSON document.
- AuditLedger.StepKeepsSafety: inserting and committing are one step, so a concurrent duplicate loses to the first commit; the global checkpoint over all runs is not modelled, and neither is the choice between ignoring and raising a duplicate.
- Redaction.RedactPayload: configured paths come already split, places are sequences of keys and positions instead of texts, keys are folded as ASCII, and `_redact_path` returns a new value instead of overwriting a copy.
- NodeWorkflow.LangGraphNodeWorkflow.Drive: a segment without a budget is described only for behaviours that complete; one that never does loops forever. Identifiers are counters instead of UUIDs, and JSON round trips are the identity.
- NodeWorkflow.LangGraphNodeWorkflow.Run: a run without a budget is described only for behaviours that complete; any other never returns.
- NodeWorkflow.LangGraphNodeWorkflow.Resume: a resume without a budget is described only for behaviours that complete; any other never returns.
- Chunking.MarkdownChunk: size and overlap arrive as integers, as missing, or as not convertible; the conversion itself is not modelled.
- Leases, step functions of other backends, planner, marketplace, CLI, dashboards, providers, OpenTelemetry, approval gates and the policy engine are not modelled: they are I/O, templates, or would add only easier statements.
