# Verified models of EchoSelf memory, wake/rest, interests and model conversion

Each module models one component of the repository and proves what it promises, over all inputs, all orders in which unordered collections may be walked, and all runs.

- `Activation`, `Spreading`, `Outcomes`, `Caps`, `HypergraphMemory`: the hypergraph memory of the version 2 demo. A class updates nodes, edges, the adjacency structure and the per-type index in place, as `HypergraphMemory` does in Python. Activation spreading is a clamped recursion that mutates nodes while it walks sets. It is proved to end exactly in an outcome for some order. What it adds up is one sum over hyperedge walks; every outcome lies between two bounds made of these sums, and where the bounds agree, as with nonnegative strengths, all orders do. When all orders agree is settled exactly by two caps computed from the graph. Every run of operations keeps every index in agreement with the graph, and pruning is exact.
- `Skills`: practice with diminishing returns, prerequisites, and the greedy scheduler. A count of remaining practices bounds every run; a finished run has mastered every skill exactly when no skill was blocked at its start.
- `WakeRest`: the five-state wake/rest controller. A class updates its fields in place and is tied to a one-step function; safety holds over every run, and a ranking on state, fatigue and time in state shows that every run completes another cycle.
- `RowMajor`, with `Arith`: dense tensors in row-major order (reshape, axis permutation, slice, concatenation, row selection), with indexing inverses. `Llama`, `LlamaModel`, `SplitMerge`, `Llama4` and `GptOss` build the converters on it and prove each relayout a bijection on elements, with its round trip and the exact condition under which it exists.
- `Tokenizer`: the sentence-piece vocabulary extended by added tokens, with the exact success condition and independence of map order.
- `CpuTally`, with `Sums`: sockets, cores and threads tallied through three maps, conserving records.
- `TopicClusters`, `Interests`: incremental clusters against connected components, and the list of active interests as a view of the salience map that survives saving and loading.
- `Sorting`, `Basics`: a stable sort with its laws, and the result types and clamping.

## What the proofs show about the code

- `max_nodes` does not bound the memory when it is below 9: a tenth of fewer than ten nodes is none, so nothing is pruned (`HypergraphMemory.BoundHoldsFromNine`).
- Consolidation divides by zero exactly when a stored edge has no nodes, and then drops nothing (`HypergraphMemory.HypergraphMemory.ConsolidateMemories`).
- A new cluster is named by the number of clusters. After a merge that name can be in use, and the cluster stored there is lost (`TopicClusters.ReusedNameLosesCluster`). A step is exact if and only if this does not happen (`TopicClusters.StepExact`), and it cannot happen before the first merge (`TopicClusters.UntilTheFirstMerge`).
- The controller's branch from drowsy back to awake is dead for in-range input (`WakeRest.StepEdges`, `WakeRest.DrowsyToAwakeTakesForgetting`). Its documentation mentions circadian patterns; the fields exist but no code reads them.
- Practice does not always finish the job. Skills are blocked if each is at or below 0.9 and either negative (then it is never offered) or waiting for a missing skill or for one of the others below 0.5. Blocked skills stay untouched forever (`Skills.BlockedIsForever`), and a finished run masters everything if and only if there are none (`Skills.FinishedRunMasters`). Registered acyclic prerequisites and nonnegative levels are enough (`Skills.AcyclicIsUnblocked`) but not needed. One skill that needs a missing one is enough to fail (`Skills.MissingPrerequisiteBlocks`).
- With a negative strength the result of spreading can depend on the order in which a set is walked: from level 1 a gain and a loss of a half end at a half or at 1 (`Outcomes.OrderMatters`). All orders agree on a level if no walk takes anything from it or its gains do not reach 1 (`Outcomes.UnclampedIsOrderFree`). This is also necessary at the last hop, and at any depth if no edge of the source both gives to the level and takes from it (`Outcomes.LastHopExact`, `Outcomes.OneSignedExact`). In general it is sufficient only, for the node list of a single edge fixes an order of its own (`Outcomes.MixedEdgeIsOrderFree`). The exact condition for every graph and depth: an order leaves a level at what it had and received, kept at or below a cap, and all orders agree if and only if the lowest and the highest cap are equal or that sum does not exceed the lowest (`Caps.OrderFreeExact`).
- `add_node` can prune the node it has just stored and still return its id, so a later `add_edge` can name a missing node (`HypergraphMemory.NewNodeIsPruned`). The indexes agree even then (`HypergraphMemory.RunOperations`).
- Decay of interests lets curiosity recover by a tenth a day from the last encounter, so after ten days it is full, whatever it was (`Interests.FadingLaw`).
- An odd fused dimension loses its last column (`Llama4.FusedRoundTrip`), and rejoining splits fails to give the tensor back whenever their extents do not add up to the dimension (`SplitMerge.SplitRoundTrip`).
- Scales without blocks, and blocks of rank below four, make the packing loop panic (`GptOss.Tensors`). A negative added-token id indexes out of range (`Tokenizer.Extended` reports an error there).

Conventions: reals stand for floats, readings of the clock and generated ids are arguments, and `int(n * 0.1)` is `n / 10`. Go panics and Python exceptions appear as `Err` or `None`. Sets and maps that the Python and Go code walks in no particular order are walked here by arbitrary choice, so every contract holds for every order.

## Model

| member | source | states |
|---|---|---|
| Activation.AnyEdgeFirst | demo_autonomous_echoself_v2.py:216-228 | The sum over the incident edges can start with any of them: set iteration order is irrelevant |
| Activation.ReceivedNonnegative | demo_autonomous_echoself_v2.py:211-228 | With nonnegative strengths no target receives a negative amount |
| Activation.WalksFrom | demo_autonomous_echoself_v2.py:211-228 | What the recursion hands to a target is the sum, over a finite set holding exactly the hyperedge walks of at most `depth` hops that pass the 0.1 cutoff before every hop, of what each walk brings |
| Activation.ReceivedIsWalkSum | demo_autonomous_echoself_v2.py:211-228 | The same for every set that holds exactly those walks, so the closed form does not depend on how the walks are collected |
| Activation.BringsProduct | demo_autonomous_echoself_v2.py:211-228 | A walk brings the starting amount times the strengths of its edges |
| Activation.WalkIsChain | demo_autonomous_echoself_v2.py:211-228 | The walks of the recursion are the chains of hops over listed edges to stored nodes elsewhere that keep amount times strengths at 0.1 or more before every hop |
| Activation.ReceivedIsTotal | demo_autonomous_echoself_v2.py:211-228 | A target receives amount times strengths added up over exactly these chains to it, within the hop limit |
| Activation.CarriersExist | demo_autonomous_echoself_v2.py:211-228 | The chains to a target within the hop limit are a finite set |
| Activation.OutOfReach | demo_autonomous_echoself_v2.py:211-228 | A node that no such walk reaches receives nothing |
| Spreading.GainIsMore | demo_autonomous_echoself_v2.py:211-228 | What is received is at most what is received when nothing negative is counted, and that is never negative |
| Spreading.GainIsReceived | demo_autonomous_echoself_v2.py:211-228 | A target receives its whole gain iff no walk to it within the hop limit brings a negative amount: only walks that end there count |
| Spreading.BetweenSteps | demo_autonomous_echoself_v2.py:201-224 | Clamped additions one after another stay between two bounds: gains first and losses last, losses first and gains last |
| Spreading.BoundsMeet | demo_autonomous_echoself_v2.py:201-224 | The two bounds are one value iff nothing is lost or the gains do not reach 1 |
| Spreading.BoundsAgree | demo_autonomous_echoself_v2.py:198-228 | The bounds of a level are one value iff no walk takes anything from it or its gains do not reach 1; the value is min(1, old + received) |
| Spreading.NonNegativeTakesNothing | demo_autonomous_echoself_v2.py:211-228 | With nonnegative strengths no walk takes anything from any level |
| Outcomes.SomeOutcome | demo_autonomous_echoself_v2.py:211-228 | The recursion has an outcome from every graph and levels |
| Outcomes.EdgesThenEdges | demo_autonomous_echoself_v2.py:216-228 | Walking some edges and then others is one way of walking all of them |
| Outcomes.SpreadsRaises | demo_autonomous_echoself_v2.py:211-228 | Every outcome of the recursion, in whatever order its sets are walked, lies between the bounds and leaves no level above 1 |
| Outcomes.Activated | demo_autonomous_echoself_v2.py:198-209 | From levels of at most 1, every outcome of boost and spreading lies between the bounds, and is min(1, old + boost + received) with nonnegative strengths or where no walk takes anything |
| Outcomes.ActivatedPlainly | demo_autonomous_echoself_v2.py:198-228 | The same with the sum over chains of amount times strengths in place of what is received |
| Outcomes.UnclampedIsOrderFree | demo_autonomous_echoself_v2.py:211-228 | If no walk takes anything from a level or its gains do not reach 1, all orders end it at min(1, old + received); sufficient for every graph |
| Outcomes.BothBounds | demo_autonomous_echoself_v2.py:216-228 | If no edge of the source both gives to a level and takes from it, some order attains the lower bound and some order the upper one |
| Outcomes.OneSignedExact | demo_autonomous_echoself_v2.py:211-228 | Then all orders agree on the level iff no walk takes anything from it or its gains do not reach 1 |
| Outcomes.LastHopExact | demo_autonomous_echoself_v2.py:216-224 | At the last hop that condition is exact for every graph |
| Outcomes.OrderMatters | demo_autonomous_echoself_v2.py:198-228 | Two edges of strengths p >= 0 and q < 0 over two hops: outcomes min(1, x + p) + q and min(1, x + p + q) both occur, and all orders agree iff x + p <= 1 |
| Outcomes.MixedEdgeIsOrderFree | demo_autonomous_echoself_v2.py:198-228 | One edge whose first node gives to a level and whose second takes from it: every order ends at min(1, x + q) + r although the gain may reach 1, so for such edges the condition is not necessary |
| Caps.SpreadsKeep | demo_autonomous_echoself_v2.py:211-228 | Every outcome ends a level at all that it had and received, kept at or below a cap between the lowest and the highest one |
| Caps.SpreadTo | demo_autonomous_echoself_v2.py:211-228 | Some order leaves the level the lowest cap and some order the highest, so both ends occur |
| Caps.CapsInOrder | demo_autonomous_echoself_v2.py:211-228 | The lowest cap is at most the highest, which is at most 1 |
| Caps.OrderFreeExact | demo_autonomous_echoself_v2.py:211-228 | For every graph, all strengths and any depth, all orders agree on a level iff the lowest and highest cap are equal or what the level had and received does not exceed the lowest |
| Spreading.EdgeRaised | demo_autonomous_echoself_v2.py:216-228 | Visiting one more edge in place keeps every level between the bounds of the edges visited |
| Spreading.NodeVisited | demo_autonomous_echoself_v2.py:220-228 | Raising one listed node and recursing from it keeps every level between the bounds; the source and nodes not stored pass nothing on |
| Spreading.BoostedAndRaised | demo_autonomous_echoself_v2.py:198-209 | After the clamped boost of the source every node ends between its bounds, and at min(1, old + boost + received) if no walk takes anything from it |
| Spreading.FarLevelsUnchanged | demo_autonomous_echoself_v2.py:211-228 | Spreading leaves every node unchanged that no walk within the hop limit reaches |
| Spreading.SpreadingOnlyRaises | demo_autonomous_echoself_v2.py:211-228 | No level ends above 1, and one that no walk takes from is not lowered |
| HypergraphMemory.HypergraphMemory.ActivateNode | demo_autonomous_echoself_v2.py:198-209 | The levels become an outcome of the boost and of spreading half the amount over two hops in some order; from levels of at most 1, with nonnegative strengths or where no walk takes anything, a node ends at min(1, old + boost + the sum over chains of half the amount times their strengths, cut off below 0.1), and otherwise between its bounds; unknown ids change nothing; access count and time are recorded; graph and indexes stay |
| HypergraphMemory.HypergraphMemory.PruneMemories | demo_autonomous_echoself_v2.py:276-292 | Exactly a tenth of the nodes goes, none of them with more importance times activation for its age in days than any survivor, with exactly the edges that touch a victim; no dangling edge appears |
| HypergraphMemory.ValueLaw | demo_autonomous_echoself_v2.py:281-285 | Value times one plus the age in days is importance times activation, and values compare as these do crosswise |
| HypergraphMemory.PresentSumLaw | demo_autonomous_echoself_v2.py:264 | The level sum of an edge counts each listed node that is stored, as often as it is listed, and no other |
| HypergraphMemory.ConsolidationLaw | demo_autonomous_echoself_v2.py:263-267 | An edge gains a tenth, up to 1, exactly if its stored nodes sum to more than half the number of nodes it lists |
| HypergraphMemory.HypergraphMemory.SpreadActivation | demo_autonomous_echoself_v2.py:211-228 | The in-place recursion ends exactly in an outcome for the order it takes, whatever the strengths and levels |
| HypergraphMemory.HypergraphMemory.SpreadThroughEdge | demo_autonomous_echoself_v2.py:217-228 | Walking the node list of one edge in place visits its nodes in order, each with the share of the edge |
| HypergraphMemory.HypergraphMemory.SpreadToNode | demo_autonomous_echoself_v2.py:220-228 | A node other than the source that is stored is raised and spreads on; any other is skipped |
| HypergraphMemory.HypergraphMemory.DecayActivation | demo_autonomous_echoself_v2.py:230-233 | Every activation becomes max(0, old - rate), for every rate; a nonnegative rate leaves none above 1 if none was |
| HypergraphMemory.RunOperation | demo_autonomous_echoself_v2.py:137-325 | Any one operation with fresh ids keeps the indexes in agreement, changes the stored ids as it should, leaves no dangling edge if there was none and a new edge names stored nodes only, and no activation above 1 if none was and it does not decay at a negative rate |
| HypergraphMemory.RunOperations | demo_autonomous_echoself_v2.py:137-325 | Every finite run with fresh ids keeps the adjacency and type indexes in agreement with the graph and stays within the node bound, with dangling edges and negative rates too; no edge names a missing node at the end if none did and every new edge named nodes stored at its moment; no activation ends above 1 if none was and no rate is negative |
| HypergraphMemory.NewNodeIsPruned | demo_autonomous_echoself_v2.py:170-174 | With ten to nineteen nodes above the limit, a node just stored that is worth less than every other is the one that goes |
| HypergraphMemory.HypergraphMemory.ConsolidateMemories | demo_autonomous_echoself_v2.py:257-274 | Returns the number of co-active edges; each of these gains 0.1 up to 1; exactly the edges then below 0.2 go; fails iff some stored edge has no nodes (division by zero), and then removes nothing and leaves every edge at its old or its strengthened value |
| HypergraphMemory.HypergraphMemory.StrengthenEdges | demo_autonomous_echoself_v2.py:261-267 | Every edge is strengthened by its own co-activity, independent of the visiting order, and the count is right; on failure each edge has its old or its strengthened value |
| HypergraphMemory.TraceIsBounded | demo_autonomous_echoself_v2.py:152-174 | Every sequence of stored ids that the operations can produce stays within max(initial, max_nodes, 9) |
| HypergraphMemory.HypergraphMemory.constructor | demo_autonomous_echoself_v2.py:137-150 | A new memory is empty, its indexes agree and nothing dangles |
| HypergraphMemory.HypergraphMemory.AddEdge | demo_autonomous_echoself_v2.py:176-196 | A new edge is listed for exactly the nodes it names; nothing dangles afterwards iff nothing did and all named nodes are stored |
| HypergraphMemory.HypergraphMemory.RemoveEdge | demo_autonomous_echoself_v2.py:313-325 | An edge leaves the store and every adjacency set, and no other edge leaves either; unknown ids change nothing |
| HypergraphMemory.HypergraphMemory.RemoveNode | demo_autonomous_echoself_v2.py:294-311 | A node leaves the store, its type index and the adjacency, together with exactly the edges that name it; unknown ids change nothing |
| HypergraphMemory.HypergraphMemory.RemoveEdgesOf | demo_autonomous_echoself_v2.py:303-306 | Removing the edges listed for a node, in any order, removes exactly the edges that name it |
| HypergraphMemory.HypergraphMemory.ListValues | demo_autonomous_echoself_v2.py:279-285 | Each node is listed once with importance times activation times recency, in any walking order |
| HypergraphMemory.LowestFirsts | demo_autonomous_echoself_v2.py:288-292 | The first tenth of the sorted values are distinct nodes, and every survivor is worth at least every victim |
| HypergraphMemory.HypergraphMemory.AddNode | demo_autonomous_echoself_v2.py:152-174 | The node is stored and indexed; above the limit exactly the lowest tenth, possibly including the new node, goes; all other nodes and edges stay |
| HypergraphMemory.SizeIsBounded | demo_autonomous_echoself_v2.py:170-174 | However many nodes are added, the memory never holds more than max(max_nodes, 9) |
| HypergraphMemory.BoundHoldsFromNine | demo_autonomous_echoself_v2.py:170-174 | `max_nodes` bounds the memory after every number of additions iff it is at least 9: below that a tenth rounds to nothing |
| HypergraphMemory.HypergraphMemory.DropWeakEdges | demo_autonomous_echoself_v2.py:269-272 | Exactly the edges weaker than 0.2 go, adjacency kept in agreement |
| Skills.PracticeGains | demo_autonomous_echoself_v2.py:388-407 | A practised skill at or below 0.9 gains at least 0.002, stays below 1, and has strictly fewer practices left, at most 451 |
| Skills.PracticeUsesWork | demo_autonomous_echoself_v2.py:458-474 | Practising an offered skill strictly lowers the total of remaining practices |
| Skills.WorkIsBounded | demo_autonomous_echoself_v2.py:458-474 | That total starts at no more than 451 for each skill |
| Skills.RunsAreBounded | demo_autonomous_echoself_v2.py:452-474 | Every run of scheduler choices is at most 451 practices for each skill long, lowers no level and keeps levels in [0, 1) |
| Skills.BlockedIsForever | demo_autonomous_echoself_v2.py:409-474 | Unmastered skills that are each below zero, or wait for one of themselves below 0.5 or for a missing skill, are never practised in any run |
| Skills.QuiescentBlocks | demo_autonomous_echoself_v2.py:409-424 | When nothing is offered the unmastered skills are such a set |
| Skills.QuiescenceFinishesTheJob | demo_autonomous_echoself_v2.py:409-474 | All skills are above 0.9 iff nothing is offered and no skill is blocked |
| Skills.FinishedRunMasters | demo_autonomous_echoself_v2.py:452-474 | A scheduler run that ends with nothing to practise leaves every level above 0.9 iff no skill was blocked at its start; levels in [0, 1) stay there |
| Skills.MissingPrerequisiteBlocks | demo_autonomous_echoself_v2.py:409-424 | A single skill at 0.7 that needs a missing one is blocked: nothing is offered and it is not mastered |
| Skills.AcyclicIsUnblocked | demo_autonomous_echoself_v2.py:409-424 | Registered acyclic prerequisites and levels of at least 0 block no skill |
| Skills.GapShrinks | demo_autonomous_echoself_v2.py:401-403 | Over any practices, k of them for one skill leave 0.98 to the power of k of its gap to 1 |
| Skills.SkillRegistry.PracticeSkill | demo_autonomous_echoself_v2.py:388-407 | Succeeds iff the skill exists and every prerequisite is registered at 0.5 or more; then the gap of that level to 1 shrinks by the factor 1 - improvement, its count rises and its time is recorded; no other skill changes, and on refusal none |
| Skills.SkillRegistry.GetPracticableSkills | demo_autonomous_echoself_v2.py:409-424 | Lists exactly the skills with a level in the given range whose prerequisites are all registered at 0.5 or more, with their levels, in any walking order |
| Skills.SkillPracticeScheduler.SchedulePractice | demo_autonomous_echoself_v2.py:458-474 | Practises a skill between 0 and 0.9 that no offered skill is weaker than, never refused, so that 0.98 of its gap is left; practises none iff none is offered, and then changes nothing |
| Skills.SkillRegistry.AddSkill | demo_autonomous_echoself_v2.py:378-382 | A skill replaces the one under its id, leaves the others, and is appended to the list of its category if that is known |
| Skills.SkillPracticeScheduler.PracticeLoop | demo_autonomous_echoself_v2.py:452-474 | From any registry the loop runs out of work after at most 451 practices a skill, and has then mastered every skill iff none was blocked at the start |
| Skills.SkillRegistry.PrerequisitesMet | demo_autonomous_echoself_v2.py:416-420 | The prerequisite loop is true iff all are registered at 0.5 or more |
| Skills.SkillPracticeScheduler.Weakest | demo_autonomous_echoself_v2.py:460-470 | The head of the list sorted by level is offered and no offered skill is weaker |
| WakeRest.NeverStuck | core/autonomous_wake_rest_controller.py:100-281 | From every safe state, as many in-range updates at least `gap` apart as the ranking says complete at least one more cycle, consolidation or not |
| WakeRest.StepProgresses | core/autonomous_wake_rest_controller.py:100-281 | One update at least `gap` after the last either counts a cycle or strictly lowers the ranking |
| WakeRest.AwakeProgresses | core/autonomous_wake_rest_controller.py:144-200 | The ranking drops while awake |
| WakeRest.DrowsyProgresses | core/autonomous_wake_rest_controller.py:144-211 | The ranking drops while drowsy, since fatigue grows to the rest threshold |
| WakeRest.RestingProgresses | core/autonomous_wake_rest_controller.py:171-221 | The ranking drops while resting, or the rest ends in waking or deepens |
| WakeRest.DeepRestProgresses | core/autonomous_wake_rest_controller.py:171-230 | The ranking drops in deep rest until both time and recovered fatigue allow waking |
| WakeRest.WakingProgresses | core/autonomous_wake_rest_controller.py:188-237 | The ranking drops while waking |
| WakeRest.RunIsSafe | core/autonomous_wake_rest_controller.py:100-281 | Over every run of updates and forced transitions the invariant holds, `total_cycles` counts the entries to waking, updates that end a sleep are as many as these entries, and sleeps begun are sleeps ended by updates, by force, and the one still going on |
| WakeRest.StepKeepsSafe | core/autonomous_wake_rest_controller.py:100-281 | One update keeps fatigue and pressure in [0, 1], drowsy implies fatigue at least 0.6 or pressure at least 0.7, waking implies fatigue below 0.3, optimal rest stays positive, histories stay bounded |
| WakeRest.StepEdges | core/autonomous_wake_rest_controller.py:188-260 | The only state changes are awake-drowsy, drowsy-resting, resting-deep, resting-waking, deep-waking, waking-awake; a cycle is counted exactly on entering waking, and both optimal durations change only there |
| WakeRest.LearningApproaches | core/autonomous_wake_rest_controller.py:262-281 | Good quality takes each optimal duration exactly a tenth of the way to the observed one, within any interval that holds both; otherwise activity shrinks and rest grows; no other field changes |
| WakeRest.StepTransitions | core/autonomous_wake_rest_controller.py:132-142 | When an update must change the state and when it must not, by the values of fatigue, pressure and time in state at the check, for each of the five states; the entry time changes exactly with the state |
| WakeRest.StepMetabolism | core/autonomous_wake_rest_controller.py:144-186 | The exact fatigue, pressure, durations and histories an update leaves, for each state, from minutes in state, quality, coherence, new memories and consolidation |
| WakeRest.HistoryKeepsTwenty | core/autonomous_wake_rest_controller.py:123-130 | A history keeps the last twenty values in order, the newest last |
| WakeRest.AverageLaw | core/autonomous_wake_rest_controller.py:267-268 | The average is the total over the number of values, and 0 without any |
| WakeRest.DrowsyToAwakeTakesForgetting | core/autonomous_wake_rest_controller.py:202-211 | The drowsy-to-awake branch needs a negative number of new memories, and then can be taken |
| WakeRest.MetabolisedMoves | core/autonomous_wake_rest_controller.py:144-186 | Fatigue rises by at least the base rate awake and falls by exactly the recovery rate asleep, clamped, and nothing else the transition check reads is touched |
| WakeRest.ActiveTires | core/autonomous_wake_rest_controller.py:144-169 | Poor quality or coherence only adds to the base rate of fatigue and never takes fatigue or pressure down |
| WakeRest.AutonomousWakeRestController.constructor | core/autonomous_wake_rest_controller.py:64-98 | The initial controller is awake and satisfies the invariant |
| WakeRest.AutonomousWakeRestController.Update | core/autonomous_wake_rest_controller.py:100-142 | The new state is decided by fatigue, pressure and time in state as the five guards say, and the fields move exactly by the one-step function whose runs are proved safe and live |
| WakeRest.AutonomousWakeRestController.UpdateAwakeState | core/autonomous_wake_rest_controller.py:144-169 | Changes fatigue, pressure and activity duration as StepMetabolism says for a waking state, and no other field |
| WakeRest.AutonomousWakeRestController.UpdateRestingState | core/autonomous_wake_rest_controller.py:171-186 | Changes fatigue, pressure and rest duration as StepMetabolism says for rest, and no other field |
| WakeRest.AutonomousWakeRestController.CheckStateTransitions | core/autonomous_wake_rest_controller.py:188-237 | Reads the fields only and returns the state that StepTransitions pins guard by guard |
| WakeRest.AutonomousWakeRestController.TransitionToState | core/autonomous_wake_rest_controller.py:239-260 | Enters a state and stamps the time; only entering waking counts a cycle and learns durations; every other field stays |
| WakeRest.AutonomousWakeRestController.ForceRest | core/autonomous_wake_rest_controller.py:363-365 | Enters resting from any state |
| WakeRest.AutonomousWakeRestController.ForceWake | core/autonomous_wake_rest_controller.py:367-371 | Enters awake from any state with no fatigue and no pressure left, and counts no cycle |
| Llama.HalfHead | convert/convert_llama.go:194-196 | The two truncating divisions lose no row iff twice the number of heads divides the row count |
| Llama.RepackAccepts | convert/convert_llama.go:193-204 | The reshape checks and the four-axis transpose pass exactly for a matrix, a nonzero number of heads, and a row count that twice the heads divides (or empty rows) |
| Llama.DestinationIsBijective | convert/convert_llama.go:194-204 | The row map and its inverse undo each other on all rows |
| Llama.DestinationFormula | convert/convert_llama.go:194-204 | Row h*dk + a*(dk/2) + b goes to row h*dk + 2*b + a, with dk the rows of a head |
| Llama.DestinationKeepsHead | convert/convert_llama.go:194-204 | No row leaves its head |
| Llama.RepackMovesRows | convert/convert_llama.go:193-204 | Every element moves to the destination of its row and keeps its column |
| Llama.RepackIsMovedByHead | convert/convert_llama.go:193-204 | An accepted repacking keeps shape and size and moves every row, with its columns, to its destination |
| Llama.RepackRoundTrip | convert/convert_llama.go:193-204 | The reshape with its inner extents exchanged undoes the repacking, and the repacking undoes it |
| LlamaModel.LlamaModel.Repack | convert/convert_llama.go:178-221 | With h the attention heads for a query name, and for a key name the key-value heads or, if there are none, the attention heads: succeeds iff the name is one of these, h is not 0, the tensor is a matrix and 2*h divides its rows (or they are empty), and moves every row to its destination for h |
| LlamaModel.LlamaModel.RepackHeads | convert/convert_llama.go:193-221 | The sequence of tensor calls computes the permuted tensor, or fails exactly when it does not exist |
| LlamaModel.LlamaModel.AppendRows | convert/convert_llama.go:215-218 | Appending the selected rows one after another gives the flat data back |
| LlamaModel.LlamaModel.AppendRopeFactors | convert/convert_llama.go:86-106 | Fails iff there are no heads; otherwise appends ceil(dim/2) factors, one for each even rotary dimension, each the factor of its wavelength under the scaling with defaults 8, 1, 4 and 8192 for fields that are zero, keeping earlier entries |
| LlamaModel.BlendLaw | convert/convert_llama.go:101-104 | Between the bounds the reciprocal of the factor runs evenly in original / wavelength from 1 / factor at the low bound to 1 at the high one |
| LlamaModel.LlamaModel.NextFactor | convert/convert_llama.go:88-105 | The branches compute the factor that the order and continuity laws are about, or hit a division by zero exactly where it has none |
| LlamaModel.LlamaModel.Tensors | convert/convert_llama.go:129-158 | The rope factors come first if there are any, then every tensor in input order, query and key tensors repacked unless that is switched off |
| LlamaModel.RopeFactorOrder | convert/convert_llama.go:95-105 | Every factor lies in [1, factor] and a longer wavelength never gets a smaller one |
| LlamaModel.RopeFactorIsContinuousAtBounds | convert/convert_llama.go:95-105 | At both boundary wavelengths the blend meets the constant pieces: 1 and `factor` |
| LlamaModel.BlendOrder | convert/convert_llama.go:102-104 | The blend runs from `factor` down to 1 without rising as the smoothing grows |
| LlamaModel.RopeFactorsAscend | convert/convert_llama.go:86-106 | The emitted factors are nondecreasing for nondecreasing wavelengths, whatever their number |
| SplitMerge.SplitDim | convert/tensor.go:27-78 | Every split has its own name, the kind of the source and its extent in the shape; if the splits fit, its data holds at each position the element of its origin, or what its function makes of its slice; without functions the outputs joined along the dimension are the source iff the extents add up |
| SplitMerge.WrittenSplit | convert/tensor.go:31-75 | What one split writes, position by position |
| SplitMerge.JoinedIsRejoined | convert/tensor.go:27-78 | Reading the outputs back and joining them is joining the slices |
| SplitMerge.EvenShares | convert/tensor.go:33-37 | Even shares fill the dimension iff their number divides it |
| SplitMerge.PartHoldsOrigin | convert/tensor.go:35-64 | Each flat output position holds the source element its origin names |
| SplitMerge.EveryElementIsKept | convert/tensor.go:27-78 | When the extents add up to the dimension, every flat source position is the origin of some output position |
| SplitMerge.NoElementIsDuplicated | convert/tensor.go:27-78 | Two output positions with one origin are the same position of the same split |
| SplitMerge.SplitRoundTrip | convert/tensor.go:27-78 | Concatenating the splits along the dimension gives the source back iff their extents add up to the dimension, for any rank and dimension |
| SplitMerge.WrittenCount | convert/tensor.go:93-129 | As many elements are written for a merged tensor as its shape declares iff the member sizes add up to their number times the first, so always when they agree in shape |
| SplitMerge.WrittenBlock | convert/tensor.go:121-128 | With agreeing shapes element k of member j is written at j times the member size plus k |
| SplitMerge.WrittenIsStacked | convert/tensor.go:93-129 | With agreeing shapes the written data is the merged tensor in row-major order: element [j] + idx is element idx of member j |
| SplitMerge.JoinSlices | convert/tensor.go:36-50 | Two adjacent slices concatenate to the slice over both ranges |
| SplitMerge.FirstMatch | convert/tensor.go:88-91 | The pattern that claims a name is the first that matches it |
| SplitMerge.SlicesSplitFunc | convert/tensor.go:106-117 | Both results keep the order of the input, one holding exactly what the test accepts, the other the rest |
| SplitMerge.SplitOff | convert/tensor.go:87-91 | Splitting what the first i patterns left by pattern i yields exactly its first-match group and what i + 1 patterns leave |
| SplitMerge.MergeTensors | convert/tensor.go:84-104 | One merged tensor for each pattern that claims any, in pattern order, with its name, the kind of its first member, their number in front of the first shape, and exactly its first-match group; members and rest together are the input as a multiset |
| SplitMerge.PatternsInOrder | convert/tensor.go:86-101 | The merged tensors belong to strictly ascending patterns, and a pattern without one claims nothing |
| SplitMerge.MergeConserves | convert/tensor.go:84-104 | All groups and the rest together are the input as a multiset |
| SplitMerge.GroupPosition | convert/tensor.go:84-117 | Each input lands in the group of its first match, after the earlier and before the later inputs of that group |
| SplitMerge.WriteGroup | convert/tensor.go:119-129 | Members are written in order up to the first that fails, whose error is returned |
| Llama4.HalfElement | convert/convert_llama4.go:103-121 | gate[e, j, h] is in[e, h, j] and up[e, j, h] is in[e, h, half + j], in the declared shapes |
| Llama4.FusedPositionOnce | convert/convert_llama4.go:107-114 | Each position of an even fused dimension belongs to one half at one place |
| Llama4.FusedRoundTrip | convert/convert_llama4.go:103-121 | Transposing the halves back and joining them gives the fused tensor iff its last extent is even |
| Llama4.DownRoundTrip | convert/convert_llama4.go:122-133 | The down weights have their last two dimensions exchanged, as declared, and a second exchange restores them |
| Llama4.Tensors | convert/convert_llama4.go:91-142 | Vision and converted expert tensors in input order, then the rope factors of the text model if it has any, then all text tensors unchanged, since repacking is switched off |
| Llama4.ConvertOne | convert/convert_llama4.go:96-137 | By name: a vision tensor unchanged; a fused one as two halves, gate[e, j, h] == in[e, h, j] and up[e, j, h] == in[e, h, half + j], under their names; a down tensor with its last dimensions exchanged; any other set aside |
| Llama4.ConvertFused | convert/convert_llama4.go:103-121 | The loop over the two names yields the gate half and then the up half |
| Llama4.HalfOutputHolds | convert/convert_llama4.go:107-120 | Kind, shape and every element of a half, and failure for any rank but three |
| Llama4.DownOutputHolds | convert/convert_llama4.go:122-133 | Kind, shape and every element of down weights, and failure for any rank but three |
| Llama4.ConvertedInOrder | convert/convert_llama4.go:91-142 | Outputs and text tensors keep the order of the input |
| Llama4.ConvertedElements | convert/convert_llama4.go:96-137 | The outputs for one tensor declare as many elements as it has iff it is not a fused tensor of odd extent (or has none), and never more |
| Llama4.ConversionConserves | convert/convert_llama4.go:91-142 | Over a whole model no element is lost iff every fused tensor has an even extent or no elements |
| GptOss.WriteTo | convert/convert_gptoss.go:132-178 | Writes the flat concatenation of scales and blocks along the fourth dimension, or fails exactly when a half is missing or the shapes do not join |
| GptOss.MatchingJoins | convert/convert_gptoss.go:146-156 | Scales and blocks are joined iff the blocks have rank four or more and the scales, padded with ones, count the same groups and agree below the fourth extent |
| GptOss.ByteLayout | convert/convert_gptoss.go:132-178 | For every pair that joins, group q of the output is the scales of the group followed by block q |
| GptOss.GroupBytes | convert/convert_gptoss.go:132-178 | With one scale byte to a block of w bytes, group q starts at q * (1 + w) with scale byte q and goes on with the w bytes of block q |
| GptOss.ByteCount | convert/convert_gptoss.go:94-101 | The bytes written are 17/32 of the element count declared iff there are sixteen block bytes to a scale byte and no further extents that multiply them, or the pair is empty |
| GptOss.InterleaveRoundTrip | convert/convert_gptoss.go:132-178 | Slicing the output recovers both the scales and the blocks |
| GptOss.CutAtLastDot | convert/convert_gptoss.go:70-72 | Cutting the name at its last dot agrees with the suffix test |
| GptOss.RoleBySuffix | convert/convert_gptoss.go:70 | A tensor is half of a pair exactly if its name ends in .blocks or .scales |
| GptOss.OthersInOrder | convert/convert_gptoss.go:84-91 | The other tensors keep their order |
| GptOss.PairHoldsOnly | convert/convert_gptoss.go:66-85 | A pair holds only tensors of the input with that base name and role, and no pair is empty |
| GptOss.PairHoldsAll | convert/convert_gptoss.go:66-85 | With distinct names every half is in the pair of its base name |
| GptOss.PairUpOrderFree | convert/convert_gptoss.go:66-85 | The pairs do not depend on the order of the tensors |
| GptOss.Tensors | convert/convert_gptoss.go:66-104 | All other tensors in order, then exactly one packed tensor for each base name, in any walking order; fails (panics) iff some pair lacks blocks of rank four |
| GptOss.PackAll | convert/convert_gptoss.go:94-102 | One packed tensor for each pair with the declared shape, or failure iff a pair cannot be packed |
| GptOss.Collect | convert/convert_gptoss.go:69-92 | The in-place pass over the input collects exactly the pairs and the others |
| GptOss.AbsorbHalf | convert/convert_gptoss.go:71-83 | One half is put into its pair, created if need be, the other half kept |
| Tokenizer.BaseVocabulary | convert/tokenizer_spm.go:37-64 | Tokens, scores and types stay equal in length and order; unknown, control, unused and byte pieces keep their type, turn markers and listed specials become control, all else normal |
| Tokenizer.AddTokens | convert/tokenizer_spm.go:75-109 | Succeeds iff ids below the base size name the piece already there and the others are distinct and contiguous from the base size; then every content is at its id, old entries are unchanged, and each new position comes from an entry with score -1000 and the user-defined type |
| Tokenizer.SortById | convert/tokenizer_spm.go:90-92 | Sorted by id, a permutation of the entries, nothing promised about equal ids |
| Tokenizer.Entries | convert/tokenizer_spm.go:85-88 | Each entry of the map once, in any walking order |
| Tokenizer.ExtendedExact | convert/tokenizer_spm.go:94-109 | On sorted entries the loop succeeds exactly when they fit |
| Tokenizer.ExtendedPlaces | convert/tokenizer_spm.go:94-109 | On success every entry is at its id, old tokens keep theirs, each new position comes from an entry with score -1000 and the user-defined type, and the arrays keep step |
| Tokenizer.AddTokensExact | convert/tokenizer_spm.go:75-109 | The success condition on the map itself, for every walk of the map and every sort by id |
| Tokenizer.AddTokensOrderFree | convert/tokenizer_spm.go:75-109 | Two walks of the map give the same success and the same vocabulary |
| CpuTally.LinuxCPUDetails | discover/gpu_linux.go:145-197 | One line for each physical id in strictly ascending order with the vendor and model of its first record, the number of its distinct cores and of its records, and its one-thread cores or 0 if all are; thread counts add up to the number of records |
| CpuTally.SameCore | discover/gpu_linux.go:159-165 | Records of a socket share a core iff their core ids agree, a missing one replaced by the processor id |
| CpuTally.ThreadsLaw | discover/gpu_linux.go:158-178 | Each record is one thread of its own socket and core and of no other |
| CpuTally.FirstIsEarliest | discover/gpu_linux.go:150-157 | A line is named after the earliest record of its socket |
| CpuTally.StringLeqMeans | discover/gpu_linux.go:193 | Ids are ordered by their first difference, a beginning before what it begins |
| CpuTally.ThreadsConserved | discover/gpu_linux.go:145-197 | Any report of that form counts every record as exactly one thread |
| CpuTally.SummaryBounds | discover/gpu_linux.go:169-187 | Cores are between 1 and threads; the efficiency count is the number of one-thread cores or, when all are, zero; 2*cores <= threads + efficiency cores iff it was not zeroed |
| CpuTally.CoresHoldThreads | discover/gpu_linux.go:158-178 | The threads of the cores of a socket add up to the records of that socket |
| CpuTally.Tally | discover/gpu_linux.go:169-187 | The counts filled in for a socket are the ones its records imply |
| CpuTally.CountThreads | discover/gpu_linux.go:175-180 | Walking the cores in any order adds up all threads and counts the one-thread cores |
| CpuTally.Track | discover/gpu_linux.go:146-166 | The three maps agree with the records: sockets, cores of each socket, threads of each core |
| CpuTally.TrackOne | discover/gpu_linux.go:149-166 | One more record keeps the three maps in agreement |
| CpuTally.SortedKeys | discover/gpu_linux.go:188-193 | The ids, each once, in ascending order whatever order the map is walked in |
| CpuTally.InOrder | discover/gpu_linux.go:188-196 | The lines follow the sorted ids |
| TopicClusters.StepKeepsDisjoint | core/echo_interest.py:160-178 | One relation keeps the clusters pairwise disjoint and nonempty |
| TopicClusters.StepKeepsSound | core/echo_interest.py:160-178 | One relation keeps topics that share a cluster connected by recorded relations |
| TopicClusters.SoundAndComplete | core/echo_interest.py:154-178 | Disjoint sound clusters are the connected components iff every recorded relation joins topics of one cluster |
| TopicClusters.StepExact | core/echo_interest.py:154-178 | From exact components, one more relation keeps them exact iff it does not create a cluster under a name in use |
| TopicClusters.OverwriteLoses | core/echo_interest.py:165-168 | Creating a cluster under a name in use always destroys the agreement with the components |
| TopicClusters.RunIsSound | core/echo_interest.py:147-178 | In every run the clusters stay disjoint and only join connected topics |
| TopicClusters.RunIsExact | core/echo_interest.py:147-178 | The clusters are exactly the connected components after every relation of a run iff none of them creates a cluster under a name in use |
| TopicClusters.UntilTheFirstMerge | core/echo_interest.py:165-178 | Until the first merge the names are 0, 1, 2, ... without a gap, so none in use is reused |
| TopicClusters.ReusedNameLosesCluster | core/echo_interest.py:154-178 | After a merge a name is reused: for any eight distinct topics a run of five relations loses a cluster |
| Interests.TopFiveIsTop | core/echo_interest.py:217-230 | Active interests are at most five distinct topics above 0.3 in descending salience; a topic above 0.3 is left out only for five at least as salient |
| Interests.SaveLoadRoundTrip | core/echo_interest.py:405-494 | Loading a saved record restores the whole state iff the unsaved active list was current |
| Interests.PutKeepsDistinct | core/echo_interest.py:180-215 | Assigning a salience keeps one entry a topic and changes no other |
| Interests.EncounterLaw | core/echo_interest.py:96-139 | Every field of a first and of a later encounter: counts and times, valence and satisfaction three tenths of the way, learning and curiosity by their exact steps within [0, 1] |
| Interests.SalienceLaw | core/echo_interest.py:185-213 | Salience is three tenths recency, two tenths each frequency, feeling and curiosity, one tenth nearness of learning to one half |
| Interests.GoalLaw | core/echo_interest.py:376-381 | A goal takes the progress up to 1 and is completed iff it was or that reaches its depth |
| Interests.LearnedLaw | core/echo_interest.py:383-389 | Only the topic of the goal, if engaged, learns a tenth up to 1 |
| Interests.PutNew | core/echo_interest.py:215 | Assigning a new topic puts it last in the map |
| Interests.PutKnown | core/echo_interest.py:215 | Assigning a known topic leaves it where it is |
| Sorting.SortStable | core/echo_interest.py:220-224 | Topics of equal salience keep the order of the map |
| Interests.FadingLaw | core/echo_interest.py:350-362 | Fading touches curiosity only and keeps it in [0, 1]; it falls iff a tenth a day is less than what the decay factor takes, and is full again after ten days |
| Interests.SalienceInRange | core/echo_interest.py:185-213 | Salience of an engagement in range stays in [0, 1], grows with recency, and as a function of progress is greatest at one half |
| Interests.EncounterKeepsRange | core/echo_interest.py:96-139 | First and later encounters with arguments in range keep curiosity, progress, valence and satisfaction in range |
| Interests.Reloaded | core/echo_interest.py:405-494 | Saving a tracker and loading the record gives a tracker in the same state, active interests included |
| Interests.EchoInterest.RecordTopicEncounter | core/echo_interest.py:74-145 | The engagement becomes the first or the next encounter, its salience is computed and assigned, and the active list is current again |
| Interests.EchoInterest.UpdateSalience | core/echo_interest.py:180-215 | Computes and assigns the salience of an engaged topic, ignores any other |
| Interests.EchoInterest.DecayInterests | core/echo_interest.py:342-367 | Every engagement fades by the days since its last encounter, every salience is computed anew from it, and the active list is current again |
| Interests.EchoInterest.Load | core/echo_interest.py:444-494 | The tracker restored from a record, the active list worked out anew; it is in order exactly if the record is |
| Interests.EchoInterest.constructor | core/echo_interest.py:57-72 | An empty tracker whose active list is current |
| Interests.EchoInterest.UpdateActiveInterests | core/echo_interest.py:217-230 | The active list becomes the top five of the salience map |
| Interests.EchoInterest.AddTopicRelation | core/echo_interest.py:147-178 | Links the two engagements that exist and takes one clustering step; the active list stays current |
| Interests.EchoInterest.LinkEngagements | core/echo_interest.py:149-152 | Each of two engaged topics gains the other as related, no other changes |
| Interests.EchoInterest.UpdateClusters | core/echo_interest.py:154-178 | The in-place search and branches are the clustering step whose runs are proved exact |
| Interests.EchoInterest.FindClusters | core/echo_interest.py:155-163 | Searching all clusters finds the unique cluster of each topic, if any |
| Interests.EchoInterest.UpdateGoalProgress | core/echo_interest.py:374-390 | Only the first goal with the id advances, and only its topic learns; the active list stays current |
| Interests.EchoInterest.Save | core/echo_interest.py:405-442 | The record holds engagements, goals, saliences and clusters, sets as lists without repetition |
| Interests.ListOf | core/echo_interest.py:405-442 | A set as a list of exactly its elements without repetition |

## Left out

- LlamaModel.LlamaModel.AppendRopeFactors: a factor whose formula divides by zero is only marked as such; the infinity or NaN that float arithmetic then gives is not modelled. The wavelengths are a parameter, since their real power is library arithmetic, and the wrap of the 32-bit loop index near 2^32 is not modelled.
- Llama4.Tensors: expert tensors are taken to have rank at least 3; with fewer the Go code panics on indexing the shape.
- SplitMerge.SplitDim: a consumer that stops the sequence early is not modelled; a slice of width zero is an empty tensor.
- HypergraphMemory.HypergraphMemory.ActivateNode: levels above 1 to begin with, which only a negative decay rate can leave, have an outcome in some order but no bounds.
- HypergraphMemory.HypergraphMemory.ConsolidateMemories: when it fails, which edges were already strengthened depends on the walking order and is left open.
- HypergraphMemory.HypergraphMemory.AddEdge: the edge keeps its node list as a value, so later changes of the caller's list are not modelled; edge and node ids are fresh.
- WakeRest.NeverStuck: the gap is measured from the last clock reading of one update to the first of the next, and quality and coherence lie in [0, 1] with a nonnegative number of new memories.
- Skills.SkillPracticeScheduler.PracticeLoop: runs until a round finds nothing to practise; the thread, its stop flag and the sleeping between rounds are not modelled.
- Interests.EchoInterest.RecordTopicEncounter: the recency factor of the salience, a real exponential, is an argument.
- Interests.EchoInterest.DecayInterests: the real power of the decay rate and the recency factors are functions given as arguments.
- Interests.EchoInterest.Save: the record conversion is modelled, the JSON file is not; cluster names `cluster_n` are the number n.
- GptOss.WriteTo: errors of the writer and of reading the two halves are not modelled.
- SplitMerge.MergeTensors: `path.Match` is a parameter, a malformed pattern matching nothing.
- Engagements, exploration goals, CPU records and block/scale pairs are values in maps, so two references to one record are not modelled.
- The tensor library is exact row-major operations; its pending transpose is applied at once. String replacement of tensor names is a parameter or the identity.
- Float32 rounding and the conversions between float and integer widths.
- Exploration-goal generation, discussion choice, metrics and summaries, goal priorities, skill names and descriptions, the skills registered at start-up: they read state or add independent records.
- The remaining keys of the converters' metadata, the parsing of /proc/cpuinfo lines, JSON and protobuf decoding.
- The later and earlier demos, the Go agents, GPU discovery, language-model calls, the HTTP client and the terminal interface.
