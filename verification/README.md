# A verified model of zmm-build

This project models, in Dafny, the parts of zmm-build whose correctness is not obvious from reading one
function, and proves what they are there for.

* **The build scheduler** (`src/builder.c`). The graph API and the planner are an imperative class
  (`BuildGraphs.BuildGraph`) whose methods are proved against definitions of reachability, dirtiness and
  counting (`Graphs`, `GraphApi`, `Plans`). The ring buffer is a class over an array (`TaskQueues`). The worker
  pool is a step relation (`Schedulers`): one action is one critical section, one atomic operation, or the start
  or the end of a builder call; every interleaving of the main thread with any number of workers is a run. An
  inductive invariant (`Ownership`, `Counting`, `CoreInvariant`, `WaitingInvariant`) carries the theorems about
  all reachable states (`RunTheorems`, `OrderTheorems`, `TerminationTheorems`), about the race of the seed scan
  (`SeedRace`, `RaceExamples`), about which builds can end (`Knots`, `Finishing`) and, with a file system beside
  the pool (`Worlds`), about whole builds (`Rebuild`) and any number of them in a row (`Rounds`).
* **The hash table** (`extern/khash/khash.h`): the arithmetic of its probe sequence and of its capacities
  (`Probing`), the invariant of a table and of its in-place rehash (`HashTables`), and the table as a class that
  refines a finite map (`KHashes`). `builder.c` uses it for `node_map`, which `BuildGraph` has as a map.
* **The JSON tokenizer and the compile-commands codec** (`extern/jsmn/jsmn.h`, `src/cc.c`, helpers of
  `cli/main.c`). `Tokens` is a reference machine with an explicit stack of open containers; `JsmnParser` is the
  tokenizer, which has no stack and scans its token array backwards, proved to be that machine. `Lexing`,
  `Brackets`, `TokenTree` and `Siblings` say which texts are accepted and what the tokens mean, and `JsonTexts` says
  it for every text in the grammar of sections 2 to 7 of RFC 8259. `CommandText`, `CommandTokens`,
  `CompileCommands` and `RoundTrip` lead to the round trip of compile-commands files; `WrittenJson` settles which of
  them are JSON. `JsonCommands` and `CommandFields` say what is read from the files of others, and `Definedness` on
  which texts the reader stays within its tokens, with examples in `DefinednessExamples`.
* **Two small codecs**: flag-directory names (`Mangle`, for `templates/practical-exe/build.c`; the function is
  copied in `templates/practical-lib/build.c`), an encoding in the manner of section 2.1 of RFC 3986, and the
  streaming reader of dependency files (`Depfile`, for `src/dep.c`, without the Windows branch).

Text is `string`, one `char` standing for one byte; `Mangle` has bytes as numbers.

## Clean runs, and the race of the seed scan

`zmm_bg_exec` starts its workers before it scans for nodes to seed. The scan reads counters that a worker may
already have brought to zero, and then queues a node that the worker has queued as well. A step is *clean*
(`Steps.Clean`) unless it is such a seed. The invariant and the theorems about runs are about clean runs.
Two things connect them to the code: runs in which no counter is decremented before the scan ends are clean
(`RunTheorems.GuardedRunIsClean`), and `SeedRace` gives a condition on the prepared graph under which *every* run
is clean, the *safe order*: each dirty node with dirty inputs has a dirty leaf below it with a higher node id. It
holds when outputs are declared before their inputs, and fails when they are declared after them.

The safe order is exact for processing: if and only if it holds, no node is processed twice in any run
(`SeedRace.StartedOnceIff`); processing a node without a builder counts. For calls of builders it is sufficient, and
it is exact where the nodes that break it have builders (`SeedRace.BuilderCalledOnceIff`). In safe order no run is
ever stuck before it returns (`Finishing.SafeNeverStuck`). Out of it, if the dirty node with the highest id waits for
something and nothing dirty waits for it, some run never returns: the second completion takes `remaining_dirty` from
0 to its largest value, and main and all workers go to sleep (`RaceExamples.LastNodeHangs`). Two targets, the lower
one declared first, are enough.

## What a caller may not expect

* `zmm_bg_add` on a path that was added before does not replace its inputs: they accumulate, while the builder
  is replaced (`GraphApi.AddedDecl` follows the code).
* `mangle_cli_args` gives the empty list of flags the name that the one flag `default` has; `Mangle.SameNameIff`
  states injectivity with exactly this exception.
* `zmm_cc_parse` does not look at the result of its second tokenizer pass, and does not compare its token index with
  the number of tokens inside an object. The outcome of the model is `Undefined` exactly where the code then reads a
  token that was not filled or is behind the last one, or unescapes a token that is still open.
  `Definedness.DefinedIff` says when, on all texts: `[{a}]` and `[}1]` are such texts. A text that is merely cut off
  can be read without an error: `[{"file":1` gives one command.
* `zmm_cc_append` escapes tabs and line ends, but leaves other control characters as they are. Its own reader takes them
  back; a strict JSON reader refuses the file (`WrittenJson.StrictlyJsonIff`).
* A continued line alone does not separate two prerequisites of a dependency file; `Depfile.PrintedComesBackIff` says
  exactly which rules come back as printed.
* `kh_put` into a table whose 2^31 slots all hold other keys reports the slot of one of them as if it were the key's;
  in every other table it works (`KHashes.KHash.Put`).

## Model

| member | source | states |
|---|---|---|
| TaskQueues.PushContents | src/builder.c:119-126 | a push appends exactly while there is room; a push into a full ring destroys its oldest element |
| TaskQueues.PopContents | src/builder.c:128-142 | a pop takes the oldest element and leaves the rest in order |
| TaskQueues.TaskQueue.constructor | src/builder.c:100-111 | a new queue is empty, of the given capacity |
| TaskQueues.TaskQueue.Push | src/builder.c:119-126 | in place, over the array: the new state, and with room the old contents with the node behind them |
| TaskQueues.TaskQueue.TryPop | src/builder.c:128-142 | blocks, reports shutdown or yields the oldest node, exactly as count and shutdown say; contents as a sequence |
| TaskQueues.TaskQueue.Shutdown | src/builder.c:144-149 | the shutdown flag is set |
| GraphApi.WithNodeKeepsValid | src/builder.c:223-243 | looking up or creating a node keeps `node_map` a bijection with the ids and the edge lists mirrored |
| GraphApi.AddInputKeepsValid | src/builder.c:245-250 | an added edge keeps both edge lists mirrored, occurrence by occurrence, and naming the listed paths |
| GraphApi.AddInputEffect | src/builder.c:298-317 | one turn lists one path, adds one edge for it, creates at most the node of that path, changes nothing else |
| GraphApi.TakenAll | src/builder.c:298-317 | all paths are taken exactly if none is empty |
| GraphApi.AddedDeclSteps | src/builder.c:254-264 | the declaration after a whole `zmm_bg_add` is what its steps leave one after the other |
| BuildGraphs.BuildGraph.constructor | src/builder.c:194-200 | a new graph is empty and valid |
| BuildGraphs.BuildGraph.GetOrPutNode | src/builder.c:223-243 | the path has a node, the returned one; a known path changes nothing; a new node is the last one, is no target, not phony, not always-dirty, and has no builder, inputs or edges |
| BuildGraphs.BuildGraph.AddDependencyEdge | src/builder.c:245-250 | one edge in both directions to the node of the path |
| BuildGraphs.BuildGraph.TgInit | src/builder.c:281-288 | the node is a target with this builder; validity kept |
| BuildGraphs.BuildGraph.TgSetPhony | src/builder.c:290-292 | only the phony flag of the node changes; validity kept |
| BuildGraphs.BuildGraph.TgSetAlwaysDirty | src/builder.c:294-296 | only the always-dirty flag of the node changes; validity kept |
| BuildGraphs.BuildGraph.TgAddInputs | src/builder.c:298-317 | exactly the paths before the first empty one become inputs, one edge each; the result says whether there was one; validity kept |
| BuildGraphs.BuildGraph.Add | src/builder.c:254-264 | field by field: a target with this builder, phony and always-dirty as it was or as asked; its sources and dependencies are those it had and, in order, the given ones, or those before the first empty path; new nodes are inputs of it that know nothing yet; other known nodes keep theirs; validity kept |
| BuildGraphs.BuildGraph.AddPhony | src/builder.c:266-277 | the same, and the target is phony exactly if it was or nothing was refused |
| Graphs.DirtyUnfolds | src/builder.c:334-387 | being above a stale node satisfies the recursive rule of the dirty check, on every graph |
| Graphs.DirtyIsTheOnlySolution | src/builder.c:334-387 | on an acyclic graph nothing else satisfies it |
| BuildGraphs.BuildGraph.CheckFiles | src/builder.c:321-383 | in numbers: true exactly if the output has no file, or some input has none, or one with more seconds, or with equal seconds and more nanoseconds |
| BuildGraphs.BuildGraph.EvalNodeDirty | src/builder.c:334-387 | memoised evaluation in any order: terminates on every graph; what it marks is dirty; every mark follows from the node itself or from a marked input; on acyclic graphs the marks are exact |
| BuildGraphs.BuildGraph.PlanSubgraph | src/builder.c:389-407 | marks exactly what was marked before and what is reached from the start |
| BuildGraphs.BuildGraph.MarkTargets | src/builder.c:420-424 | fails exactly if a target is unknown; else exactly what the targets reach is marked |
| BuildGraphs.BuildGraph.EvaluateSubgraph | src/builder.c:426-430 | inside the subgraph, marks are sound and follow from the node itself or a marked input, and are exact if the graph is acyclic |
| BuildGraphs.BuildGraph.CountDirtyInputs | src/builder.c:437-442 | the number of dirty inputs with multiplicity, in 32 bits |
| BuildGraphs.BuildGraph.CountPending | src/builder.c:432-445 | every dirty node of the subgraph gets its count; the total is their number |
| BuildGraphs.BuildGraph.Prepare | src/builder.c:409-449 | the plan that a run starts from: reachability exact, counters exact, dirtiness sound and grounded, and exact on acyclic graphs |
| Plans.StaleIsActive | src/builder.c:321-387 | on every graph and in numbers: after a prepare, a wanted target that is always-dirty, or is not phony and has no file, or an input without one, or an input with a later time, is among the dirty nodes |
| Plans.ActiveIff | src/builder.c:334-387 | on every graph and in numbers: a wanted node is among the dirty nodes exactly for one of these reasons or for a dirty input |
| BuildGraphs.AddAndPlan | src/builder.c:254-449 | end to end: after adding a new target without a file, whatever the graph was, planning for it counts at least one dirty node |
| Plans.ExactIsUpwardClosed | src/builder.c:345-354 | a dirty input makes a node of the subgraph dirty |
| Counting.InitialPending | src/builder.c:432-445 | by the mirrored lists, the planner's counter is the number of decrements the dirty inputs will make |
| Schedulers.StepKeepsRange | src/builder.c:471-593 | no step leaves the ranges of nodes, dependents and buffer slots |
| Steps.StepKeepsCore | src/builder.c:471-523 | every clean step keeps: ownership of nodes, exact counters, start counts, `remaining_dirty` |
| WaitingInvariant.StepKeepsErrors | src/builder.c:490-499 | every step that moves nodes from where they are, as each clean step does, keeps: `has_error` is set exactly when a builder failed, but for the worker about to set it |
| WaitingInvariant.StepKeepsMainWaits | src/builder.c:490-576 | no wake-up of main is lost: while it sleeps work remains and a stored error is still to be broadcast |
| WaitingInvariant.StepKeepsQueueServed | src/builder.c:119-142 | no wake-up of a worker is lost: a non-empty queue has a worker that is awake |
| WaitingInvariant.StepKeepsInv | src/builder.c:471-593 | the whole invariant is inductive over clean steps |
| WaitingInvariant.StartsInInv | src/builder.c:525-560 | it holds when the queue and the workers exist |
| RunTheorems.Reachable | src/builder.c:471-593 | hence in every state a clean run reaches, for every number of workers |
| RunTheorems.GuardedRunIsClean | src/builder.c:501-569 | a run without a decrement before the end of the seed scan is clean |
| RunTheorems.GuardedReachable | src/builder.c:501-569 | so the whole invariant holds in every state that such a run reaches |
| RunTheorems.ExactlyOnce | src/builder.c:471-569 | each dirty node is in exactly one place: waiting, in one hand, queued once, with one worker, or at its end; it is started at most once |
| RunTheorems.NeverOverflows | src/builder.c:119-126 | whenever a thread is about to push there is room, and the push appends |
| OrderTheorems.InputSucceeded | src/builder.c:501-512 | a node leaves the waiting phase only when all its dirty inputs have succeeded |
| OrderTheorems.OrderRespected | src/builder.c:475-512 | a started node has only succeeded dirty nodes transitively below it |
| OrderTheorems.FailureContained | src/builder.c:475-512 | nothing above a failed node has been started |
| OrderTheorems.FailureContainedForever | src/builder.c:475-512 | nor will it be, in any continuation |
| OrderTheorems.ErrorStopsCalls | src/builder.c:475-479 | once `has_error` is set, no node is started in any run from there |
| TerminationTheorems.StepUses | src/builder.c:471-593 | every step but a spurious wake-up uses some of a measure |
| TerminationTheorems.RunsAreBounded | src/builder.c:471-593 | so every run is finite, with a bound known at its start |
| TerminationTheorems.SleepingMainHasCompany | src/builder.c:571-576 | unless dirty nodes wait for each other in a cycle, a sleeping main always has a worker awake |
| TerminationTheorems.NoDeadlock | src/builder.c:471-593 | without such a cycle no state before the return is stuck, even if no builder fails and nothing wakes up by chance |
| TerminationTheorems.EveryWorkerMoves | src/builder.c:471-523 | in every state each worker that has not exited can take a step of its own, except that one about to broadcast or to decrement waits while main holds `done_lock`; a sleeper may wake up by chance |
| TerminationTheorems.AnySleeperMayWake | src/builder.c:119-126 | whoever pushes a node may wake any one of the sleepers |
| TerminationTheorems.MainMoves | src/builder.c:553-592 | in every state before the return main can take a step, unless it waits for a worker that it joins |
| TerminationTheorems.ReturnCode | src/builder.c:592 | 0 exactly if all dirty nodes completed, 1 exactly if a builder failed, nothing else |
| SeedRace.SafeRunIsClean | src/builder.c:553-569 | in a graph in safe order every run is clean |
| SeedRace.UnsafeNodeStartsTwice | src/builder.c:553-569 | a node without a later leaf below it is processed twice in some run, with any number of workers |
| SeedRace.StartedOnceIff | src/builder.c:553-569 | no node, with a builder or without, is processed twice in any run exactly if the graph is in safe order |
| SeedRace.UnsafeBuilderCalledTwice | src/builder.c:484-488 | the builder of such a node, if it has one, is called twice in some run |
| SeedRace.BuilderCalledOnceIff | src/builder.c:484-488 | no builder is called twice in any run if the graph is in safe order, and, where all nodes that break the order have builders, only then |
| SeedRace.TopDownIsSafe | src/builder.c:553-569 | a graph whose nodes were created before their inputs is in safe order |
| SeedRace.BottomUpIsUnsafe | src/builder.c:553-569 | one whose nodes were created after their inputs is not, once a dirty node waits for another |
| RaceExamples.LastNodeHangs | src/builder.c:514-576 | if the last dirty node waits for something and nothing dirty waits for it, some run ends with main and all workers asleep for ever, with any number of workers |
| RaceExamples.TwoTargetsRace | src/builder.c:553-569 | two targets, the lower one declared first, suffice for a run that calls a builder twice |
| RaceExamples.TwoTargetsHang | src/builder.c:514-576 | and for a run that never returns |
| Knots.AcyclicIff | src/builder.c:389-407 | a graph is acyclic, as the theorems ask it to be, exactly if no node is reached from one of its own inputs |
| Knots.AcyclicIsUntangled | src/builder.c:432-445 | in an acyclic graph no dirty nodes wait for each other in a cycle |
| Knots.UntangledIff | src/builder.c:432-445 | no such cycle means that no dirty node is reached from one of its own inputs |
| Finishing.BuildFinishes | src/builder.c:525-593 | without such a cycle, from every state of a clean run without a failure, in safe order or after the scan, the build can be brought to its end: all dirty nodes done, result 0 |
| Finishing.FailureEnds | src/builder.c:484-592 | from every state of a clean run in which a builder runs, in safe order or after the scan, that builder can fail and the build can be brought to its end with result 1 |
| Finishing.SomeRunFails | src/builder.c:484-592 | so, where no dirty nodes wait for each other in a cycle, some run from the start ends with 1 for the failure of any given dirty target with a builder |
| Finishing.OnlyBuildersFail | src/builder.c:484-490 | a failed node is a target with a builder |
| Finishing.SafeNeverStuck | src/builder.c:525-593 | in safe order no run, whatever the interleaving, is stuck before it returns |
| Finishing.StepKeepsKnot | src/builder.c:501-512 | the nodes of a cycle among dirty nodes wait for ever: every clean step keeps them waiting |
| Finishing.FinishableIff | src/builder.c:525-593 | some clean run returns 0 exactly if no dirty nodes wait for each other in a cycle |
| Worlds.InputIsWaitedOn | src/builder.c:298-317 | the sources and dependencies of a node are the outputs of nodes it waits for |
| Worlds.ClockRises | src/builder.c:321-332 | in the runs with files time never runs backwards, in seconds and nanoseconds |
| Worlds.SuccessWritesProduct | src/builder.c:484-488 | a builder that succeeds leaves what it makes of the contents of all its sources and dependencies, with the time of the step |
| Worlds.AnythingMayBeWritten | src/builder.c:484-488 | a running builder, and one that fails, may leave any file not later than the clock, or none, in its output and touches nothing else |
| Rebuild.StepKeepsFull | src/builder.c:471-523 | every clean step keeps: settled nodes hold their from-scratch contents |
| Rebuild.IncrementalEqualsFull | src/builder.c:525-593 | after an exec that returns 0 every node of the subgraph holds the content of a rebuild from scratch, whatever the interleaving |
| Rebuild.GuardedWorldRunIsClean | src/builder.c:501-569 | the same guard for runs with files |
| Rebuild.SafeWorldRunIsClean | src/builder.c:553-569 | and the same exact condition |
| Rebuild.PreparedSetting | src/builder.c:409-449 | a successful prepare on an acyclic graph meets what the whole-build theorems ask of the graph |
| Rebuild.BuildDelivers | src/builder.c:525-593 | there is such a run, so the theorem is not about nothing: it ends with 0 and the from-scratch contents |
| Rebuild.StepKeepsUpToDate | src/builder.c:321-387 | every clean step keeps: settled outputs are not older than their inputs |
| Rebuild.NullRebuild | src/builder.c:321-449 | after a successful exec, a second prepare for the same targets marks nothing dirty |
| Rebuild.NothingToDo | src/builder.c:525-527 | when nothing is dirty, returning 0 at once is right: the subgraph holds its from-scratch contents |
| Rounds.DeliveryEarnsTrust | src/builder.c:525-593 | after an exec that returns 0 each target of the subgraph is what its builder makes of the files that are there now |
| Rounds.EditsAddUp | src/builder.c:321-332 | between builds: any content with a later time in a file that no target makes, any removal, and any number of both |
| Rounds.EditsAreSeen | src/builder.c:321-387 | after edits of other files, and any deletions, each target that a new exact prepare finds clean is still that |
| Rounds.EveryRoundDelivers | src/builder.c:409-593 | however often files are edited and the same targets are prepared and built, each round leaves the contents of a rebuild from scratch |
| Rounds.FreshCheckoutDelivers | src/builder.c:409-593 | in particular from a fresh checkout, where no output of a target is there yet |
| Probing.ProbesDistinct | extern/khash/khash.h:243-248 | the first n probes are pairwise distinct for a power of two n |
| Probing.ProbesCover | extern/khash/khash.h:243-248 | they visit every bucket, each exactly once |
| Probing.FirstReturn | extern/khash/khash.h:242-248 | the probes return to their start at step 2n-1 and not before |
| Probing.RoundsUp | extern/khash/khash.h:178-182 | `kroundup32` gives the least power of two at or above its argument up to 2^31, and 0 for 0 and beyond |
| HashTables.UpperBound | extern/khash/khash.h:345 | the load bound of a table is positive and below its capacity, so an empty slot is left |
| HashTables.LoadBound | extern/khash/khash.h:345 | it is 77 percent of the capacity, rounded to the nearest number |
| HashTables.NotYetFound | extern/khash/khash.h:236-252 | a probe loop that ended without the key: the key is not in the map |
| HashTables.InsertKeepsStored | extern/khash/khash.h:392-404 | filling a free slot or a tombstone on the key's path keeps every key reachable |
| HashTables.PickUp | extern/khash/khash.h:295-300 | lifting an old pair: nothing is lost, it is in the hand |
| HashTables.KickOut | extern/khash/khash.h:309-324 | swapping with a live old pair: nothing is lost or doubled, the hand holds the other pair |
| HashTables.PutDown | extern/khash/khash.h:325-330 | laying down the hand completes the table again |
| HashTables.RehashEnds | extern/khash/khash.h:334-345 | when the old table is used up the new one stores the same map and has no tombstone |
| KHashes.KHash.Get | extern/khash/khash.h:236-252 | finds the key's slot and value exactly if the key is in the map; the loop ends |
| KHashes.Relocate | extern/khash/khash.h:294-332 | a chain of kick-outs ends, and each kick uses up one live slot of the old table |
| KHashes.Rehash | extern/khash/khash.h:292-333 | the loop over the old slots moves every pair, whatever the two sizes |
| KHashes.CapacityIsLeast | extern/khash/khash.h:261-262 | the capacity for a request: the least power of two that is at least 4 and at least the request, and 4 for one beyond 2^31 |
| KHashes.KHash.Resize | extern/khash/khash.h:253-348 | for every 32-bit request, growing, equal or shrinking: the same map, no tombstones, that capacity; refused exactly if too small |
| KHashes.KHash.MakeRoom | extern/khash/khash.h:351-364 | the map is the same; afterwards there is room below the load bound, unless the table has 2^31 buckets, half of them in use, and is left as it is; where it is rebuilt it has 4 buckets at first, the same number if less than half hold keys, else twice as many, and no tombstone |
| KHashes.ProbeForPut | extern/khash/khash.h:366-390 | the loop ends: at the key, or at the last tombstone before the first empty slot, or at that slot; or, without either, where it started, with the last tombstone if there is one |
| KHashes.KHash.FindSlot | extern/khash/khash.h:366-390 | the slot of the key, or a free one on its path, or, exactly if all slots hold other keys, one of these |
| KHashes.KHash.Occupy | extern/khash/khash.h:392-404 | the code is 1 for a slot never used, 2 for a tombstone, 0 for a live slot, which is left as it is; else the key is stored there |
| KHashes.KHash.Put | extern/khash/khash.h:349-406 | the key is in the map, others unchanged; 0 exactly if it was there, 1 exactly if its slot was unused since the last rebuild, 2 exactly if it held a deleted key; but if 2^31 other keys fill the table nothing is stored |
| KHashes.KHash.SetVal | extern/khash/khash.h:577 | the value of the key in a live slot is replaced, nothing else |
| KHashes.KHash.Del | extern/khash/khash.h:407-412 | exactly the key of the slot leaves the map |
| Tokens.SizingIsExact | extern/jsmn/jsmn.h:106-457 | with room for what the counting pass counts, the filling pass never runs out and fills exactly that many |
| Tokens.LessRoomIsNoMem | extern/jsmn/jsmn.h:106-457 | with less room than that, a text that would be tokenized ends with -1 |
| Tokens.ParseCounts | extern/jsmn/jsmn.h:272-457 | whenever filling succeeds, counting gives the number of its tokens |
| Lexing.StringScansIff | extern/jsmn/jsmn.h:193-267 | on explicit characters: a string is accepted, up to its closing quote, exactly if it is made of characters other than quote, backslash and NUL, of the eight short escapes, and of a backslash and `u` with four hexadecimal digits |
| Lexing.OpenStringIsPartial | extern/jsmn/jsmn.h:264-266 | such pieces without a closing quote end with -3 |
| Lexing.OtherEscapeIsInvalid | extern/jsmn/jsmn.h:224-258 | any other escaped character ends with -2 |
| Lexing.PrimitiveScansIff | extern/jsmn/jsmn.h:135-188 | a primitive ends exactly at the first tab, line end, blank, comma, colon or closing bracket, NUL or end of text, if all before it is printable ASCII |
| JsonTexts.TextParses | extern/jsmn/jsmn.h:272-458 | every JSON text, with any white space, is counted and tokenized as its tree says: kinds, offsets and sizes |
| JsmnParser.LastOpenIsTop | extern/jsmn/jsmn.h:341-359 | the last open token in the array is the top of the stack of open containers |
| JsmnParser.StepKeepsGood | extern/jsmn/jsmn.h:279-446 | every turn keeps: the open tokens are the stack, in order |
| JsmnParser.Parser.OpenBracket | extern/jsmn/jsmn.h:285-311 | an opening bracket, in place, as on the stack machine |
| JsmnParser.Parser.CloseBracket | extern/jsmn/jsmn.h:312-364 | the two backward scans close the container the stack machine closes, or fail as it does |
| JsmnParser.Parser.Comma | extern/jsmn/jsmn.h:383-401 | the backward scan returns to the container the stack machine returns to |
| JsmnParser.Parser.ParseString | extern/jsmn/jsmn.h:193-267 | scans to the closing quote, checks escapes, appends the token or fails, with and without an array |
| JsmnParser.Parser.ParsePrimitive | extern/jsmn/jsmn.h:135-188 | the same for primitives, non-strict |
| JsmnParser.Parser.Parse | extern/jsmn/jsmn.h:272-458 | the whole loop without a stack computes what the stack machine computes, and when it fails leaves in the array what that had; without an array it counts |
| Brackets.AcceptsIffBalanced | extern/jsmn/jsmn.h:285-364 | a stack of kinds recognises exactly the bracket strings that a grammar of pairs generates |
| Brackets.ParsesIffBalanced | extern/jsmn/jsmn.h:272-458 | a text that the counting pass gets through is tokenized exactly if its brackets balance by type |
| TokenTree.StepKeepsLaid | extern/jsmn/jsmn.h:279-446 | every turn keeps: offsets increase, closed tokens are disjoint or nested, containers enclose their parts |
| TokenTree.EndIsLaid | extern/jsmn/jsmn.h:272-458 | so this holds of the tokens that any parse leaves, also one that fails |
| TokenTree.ParsedIsNested | extern/jsmn/jsmn.h:272-458 | after success: starts strictly increase, intervals are nested or disjoint, and lying in a token is starting before its end |
| TokenTree.SkipToken | src/cc.c:160-165 | among the filled tokens, the first later one that starts at or behind the end, or the first that is not filled |
| TokenTree.JsmnSkip | cli/main.c:120-128 | the same token: the test for offset 0 never fires |
| TokenTree.SkipEndsSubtree | src/cc.c:160-165 | what is skipped is exactly the token's subtree, by recorded containers |
| TokenTree.SizesAddUp | extern/jsmn/jsmn.h:285-439 | every token is counted in one size field or is a root |
| TokenTree.TwoPassSizing | extern/jsmn/jsmn.h:272-458 | the sizes and the roots of the filling pass add up to the counting pass's result |
| DefinednessExamples.LooseCommaEndsNothing | extern/jsmn/jsmn.h:383-401 | outside of JSON: on `a:a,a` both later words count for the first one |
| DefinednessExamples.MissingCommaCounts | extern/jsmn/jsmn.h:341-359 | on `{a:[1]a}` the second word counts for the object, not for the key |
| Siblings.EndFits | extern/jsmn/jsmn.h:272-458 | wherever a parse ends, no token counts more children than can be skipped to behind it |
| CommandText.UnescapeEscape | src/cc.c:169-195 | both unescaping functions undo the writer's escaping, on every string |
| CommandText.OneEscape | src/cc.c:169-195 | what the reader makes of each escape and each other character: three letters stand for control characters, any other escaped character for itself |
| CommandText.OneConfigEscape | cli/main.c:57-101 | the configuration reader knows two letters more |
| CommandText.EscapeIsOneLine | src/cc.c:51-77 | an escaped string holds no line end and no tab, and a string without the five special characters is written as it is |
| CommandText.Writer.WriteEscaped | src/cc.c:51-77 | appends the quoted, escaped string |
| CommandText.Writer.StrLen | src/cc.c:120 | finds the terminating NUL of a packed argument |
| CommandText.Writer.WriteArgs | src/cc.c:118-126 | walks the packed arguments, one line each, commas between them |
| CommandText.Writer.constructor | src/cc.c:81-102 | the file holds the head of a document without commands |
| CommandText.Writer.Append | src/cc.c:104-134 | the file holds the document so far with one more command |
| CommandText.Writer.Finish | src/cc.c:136-149 | the file is the document of exactly the appended commands |
| WrittenJson.WrittenIsJson | src/cc.c:81-149 | the file is the text of a JSON array with one item for each command |
| WrittenJson.StrictlyJsonIff | src/cc.c:51-77 | it is JSON in the strict sense exactly if no string in it holds a control character other than tab, newline and return |
| WrittenJson.BellIsNotStrict | src/cc.c:51-77 | a directory with a bell character in its name gives a file that is not |
| CommandTokens.LeadsEntry | src/cc.c:112-128 | the tokenizer turns the text of a command into an object of three keys with their values and sizes |
| CommandTokens.DocumentParses | src/cc.c:81-149 | the tokenizer turns a document into the expected tokens, all of its text used up |
| CompileCommands.UnescapeInto | src/cc.c:169-195 | writes the unescaped text and a NUL, within the length of the token plus one |
| CompileCommands.RoomSuffices | src/cc.c:280-296 | the packed arguments never exceed `max_packed_len` |
| CompileCommands.MeasureArguments | src/cc.c:280-285 | the first pass measures the room; it gives up exactly where the code would read a token that is not there, or an open one |
| CompileCommands.ReadArguments | src/cc.c:276-297 | then the second pass fills the measured buffer in bounds with the packed arguments |
| CompileCommands.CcParse | src/cc.c:206-315 | both tokenizer passes and the walk, against what is to be read from the tokens that the stack machine leaves, in success or failure; `Undefined` where the code leaves the tokens it has |
| CommandFields.LastKeyCounts | src/cc.c:261-305 | in every JSON-shaped document and for each of its objects: directory and file are the unescaped texts of the values of the last keys of these names, or empty, and the arguments those of the last such key with an array, whatever other keys there are and in whatever order |
| JsonCommands.JsonIsRead | src/cc.c:206-315 | every JSON array, whatever it holds and however it is laid out, is read to its end: one command for each object in it, from the last members named `directory`, `file` and `arguments` |
| JsonCommands.OtherJsonIsRefused | src/cc.c:238-244 | any other JSON value is refused |
| Definedness.DefinedIff | src/cc.c:238-305 | on all texts: the reader stays within its tokens exactly if counting fails, or the first token is no array, or all counted tokens are filled and no object counts more keys than there are keys with values to take behind it |
| Definedness.UnfilledIsUndefined | src/cc.c:246-253 | so an array that the second pass leaves unfilled is never read in bounds |
| Definedness.BalancedHasValue | src/cc.c:265-299 | where the second pass succeeds, a key lacks its value exactly if it is the last token |
| Definedness.ArgumentsAreThere | src/cc.c:280-296 | on all texts: an array never counts more arguments than there are, and all but the last are closed |
| Definedness.OpenArgumentOverflows | src/cc.c:280-296 | an open last argument makes the measured room too small for what is written |
| Definedness.ShapedIsRead | src/cc.c:206-315 | a document in the shape of JSON is read to its end, one command for each object in the array |
| DefinednessExamples.ValuelessIsUndefined | src/cc.c:261-299 | on `[{a}]` both passes succeed, and the walk skips from behind the last token |
| DefinednessExamples.MismatchIsUndefined | src/cc.c:246-253 | on `[}1]` two tokens are counted, one is filled, and the walk goes on to the other |
| DefinednessExamples.CutOffIsRead | src/cc.c:246-311 | on `[{"file":1` the second pass fails, all its tokens are there, and one command is returned without an error |
| CompileCommands.UnescapeJsonString | cli/main.c:57-101 | the configuration reader's unescaping, never longer than its source |
| RoundTrip.ReadEntry | src/cc.c:261-305 | from the tokens of one written command exactly that command is read, arguments packed |
| RoundTrip.WrittenIsRead | src/cc.c:51-315 | any list of commands without NULs, written and read, comes back: directories, files, packed arguments, in order |
| Mangle.SliceCmpIsAntisymmetric | templates/practical-exe/build.c:70-81 | only equal slices compare equal; swapping turns the sign |
| Mangle.SliceCmpIsTransitive | templates/practical-exe/build.c:70-81 | with it, the comparison is a total order |
| Mangle.SliceCmpIsLexical | templates/practical-exe/build.c:70-81 | it is the order by the first differing byte, and a slice is before its continuations |
| Mangle.SortedIsUnique | templates/practical-exe/build.c:95 | sorting has one result, so any sorting routine will do |
| Mangle.SortSorts | templates/practical-exe/build.c:95 | the sorted list is in order and a permutation |
| Mangle.DecodeJoined | templates/practical-exe/build.c:97-126 | from the name of at least one flag the flags can be read back, in sorted order |
| Mangle.SameNameIff | templates/practical-exe/build.c:85-126 | two lists have the same full name exactly if they are permutations, or one is empty and the other is the flag `default` |
| Mangle.SameNameInBufferIff | templates/practical-exe/build.c:85-126 | the same for what is written into any buffer that both names fit |
| Mangle.NameIsPrefix | templates/practical-exe/build.c:98-123 | with too little room: a prefix of the full name that ends between two pieces, the next of which does not fit |
| Mangle.NameHasWholeEscapes | templates/practical-exe/build.c:110-117 | no name, however cut, ends inside a percent escape |
| Mangle.NameIsNameLike | templates/practical-exe/build.c:101-118 | a name is made of letters, digits, full stop, hyphen, underscore and percent only |
| Mangle.ByteIsSpelled | templates/practical-exe/build.c:106-117 | wherever it stands in a flag, a letter, digit, full stop or hyphen stands for itself, and any other byte is a percent sign and two upper-case hexadecimal digits |
| Mangle.TwoFlags | templates/practical-exe/build.c:95-126 | two flags are joined by an underscore, the lesser one first |
| Mangle.OrdinaryFlagIsItsName | templates/practical-exe/build.c:85-126 | a single flag of such bytes is its own name, and the name of no flags is the seven letters `default` |
| Mangle.QSort | templates/practical-exe/build.c:95 | the flags are left sorted, in place |
| Mangle.WriteFlag | templates/practical-exe/build.c:101-118 | the bytes of one flag are written as far as they fit |
| Mangle.MangleCliArgs | templates/practical-exe/build.c:85-126 | flags left sorted; the buffer holds the name, its length is returned, bytes behind it are untouched |
| Depfile.Reader.AppendChar | src/dep.c:51-62 | the token grows by one character, whether or not the buffer has to be replaced |
| Depfile.Reader.CommitToken | src/dep.c:64-75 | a non-empty token ends; it is kept exactly if a colon was seen |
| Depfile.Reader.Feed | src/dep.c:79-139 | one character, by the state machine whose blanks are literally space, tab, vertical tab and form feed beside the line ends |
| Depfile.Reader.Parse | src/dep.c:77-143 | the chunks do not matter: the result is that of the whole text |
| Depfile.RunRule | src/dep.c:77-143 | one printed rule, its names spelled in any way, adds its prerequisites and nothing else, those without a blank between them as one name |
| Depfile.RunName | src/dep.c:86-138 | every spelling of a name adds exactly that name to the token: a backslash before any character but a line end stands for that character, and behind the first colon of the rule a colon needs none |
| Depfile.EscapeSpells | src/dep.c:86-138 | putting a backslash before space, tab, vertical tab, form feed, backslash and colon, and nothing else, is such a spelling |
| Depfile.PrintedIsRead | src/dep.c:77-143 | the same for any list of printed rules, with any gaps and continued lines |
| Depfile.PrintedIsReadAtEnd | src/dep.c:143 | also when the last line is not ended |
| Depfile.JoinedIsNamesIff | src/dep.c:96-138 | within a rule all names come back, each for itself, exactly if none is empty and a blank is in front of each but the first |
| Depfile.PrintedComesBackIff | src/dep.c:77-143 | the prerequisites of printed rules are read back, in order, exactly if this holds in every rule |
| Depfile.PrintedComesBackAtEndIff | src/dep.c:143 | also when the last line is not ended |
| Depfile.ContinuationJoins | src/dep.c:86-95 | two names with only a continued line between them are read as one |
| Depfile.LineEndsDoNotMatter | src/dep.c:81-102 | a file without CRs is read the same with CR LF line ends |
| Depfile.LoneCrEndsLines | src/dep.c:81-102 | and with a lone CR for each line end |
| Depfile.PrintedWithCrlfIsRead | src/dep.c:81-102 | printed rules with CR LF line ends, continuations included, are read the same, and come back under the same condition |

## Left out

- Real threads, weak memory, allocation and thread-creation failure: steps are sequentially consistent. The model has all workers at the queue before the scan starts; a worker that is created later is one that steps later.
- Spurious wake-ups are steps of the model, and keep every invariant; only the bound on the length of runs is for runs without them.
- The contents of a builder are one function of the contents of its inputs; a running or failing builder may leave anything in its output, and no builder touches another file. The builder of a phony target is taken to write no file at all.
- TaskQueues.TaskQueue.Push: the signal that wakes a sleeping worker is not part of this contract; it is in the step relation (`Schedulers.WakeOk`).
- TaskQueues.TaskQueue.Shutdown: the broadcast to the sleepers is in the step relation too (`Schedulers.WakeAll`).
- SeedRace.BuilderCalledOnceIff: when only nodes without builders break the safe order, whether some builder can be called twice depends on how often they are listed as inputs and on whether their second entries overflow the queue; no exact condition is given for that case.
- Cyclic graphs: planning terminates and what it marks dirty is dirty; the exactness of the marks and the whole-build theorems are for acyclic graphs, progress is for graphs without a cycle among the dirty nodes.
- Rounds.EveryRoundDelivers: every round plans the same declarations for the same targets and its build returns 0; edits carry times later than the clock of the build before. What a failed build leaves behind is not trusted by any theorem.
- The whole-build theorems ask that an exec directly follows a successful prepare and that the graph fits its counters: at most 2^64 nodes, fewer than 2^32 inputs a node.
- `zmm_bg_is_dirty`, `zmm_bg_free`, `zmm_bg_visualize` and its files: a lookup, memory, and output formatting.
- `bg_dupe_str`: paths are values; its failure on an empty path is modelled, running out of memory is not.
- KHashes.KHash.Put: the two flag bits of a bucket are one value `Slot`, not packed into words, and a failing allocation (`ret` of -1) is not modelled.
- Probing.RoundsUp: the double constant 0.77 in the load bound is not floating point here; the bound is (77n+50)/100.
- The hash function is an arbitrary function; `node_map` and `KHash` are not linked by a data refinement of `BuildGraph`, which has a map.
- The buffers of the hash table are sequences that are reassigned, not arrays that are reallocated; `kh_clear` and `kh_destroy` are left out.
- JsmnParser.Parser.Parse: token counts and offsets are not limited to the width of `int`; parent links and the strict mode are compiled out in the source too.
- CompileCommands.CcParse: after the first access that is out of bounds nothing more is said of the run; the tests that find it are the model's, not the code's. Opening and reading the file, and the lock, are left out. A missing string field and an empty one are both empty.
- RoundTrip.WrittenIsRead: `\u` escapes are tokenized but no writer emits them; raw control bytes other than newline, return and tab pass through unescaped on both sides.
- JsonTexts.TextParses: a number or a literal name is any word of letters, digits, `+`, `-` and `.`, which is more than JSON has; strings may hold any character but NUL, quote and backslash; a byte order mark is not part of a text.
- `parse_zmm_config`: only its skipping and unescaping helpers are modelled.
- Mangle.QSort: stands for the library's sort; the in-place algorithm is not modelled, its result is.
- Depfile.PrintedIsRead: the spelled names have no CR or LF, which the format cannot express. The drive-letter branch for Windows is left out.
- `src/args.c`, `src/path.c`, `src/print.c`, `src/fs.c`, `src/sys.c`, `src/cpu.c`, `src/ztime.c`, `src/vec.c`: system calls, formatting and small scans that would add easy members only.
