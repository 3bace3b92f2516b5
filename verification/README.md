# A verified model of Wunderpus's core algorithms

Wunderpus is an agent runtime written in Go. Around the plumbing for language models, channels and SQL it
holds a number of small algorithms that have to be right: a dependency scheduler with concurrent workers, a
knowledge graph with a bounded path query, a rate limiter, a self-tuning goal loop, registry search and
provider probing by fork/join, provider fallback over shared statistics, a hash-chained audit log, context
truncation, a vector index and a sub-agent manager. This project models them in Dafny, one module per
component, and proves what they promise for all inputs, all runs and all interleavings.

| module | component |
|---|---|
| `Sets`, `TaskGraphs`, `Orchestrator` | the task graph's order theory; the round-based scheduler as a state machine |
| `Strings`, `PathStrings`, `Walks`, `KnowledgeGraph` | split/join/search on strings; LIKE on joined ID paths; graph walks; the entity and relation store |
| `Vectors`, `SemanticMatch`, `Sorting`, `VectorStore` | Cauchy-Schwarz; cosine with a 20-step Newton root; stable sorting by score; the vector index |
| `RateLimiter` | the sliding-window limiter |
| `WeightTuning`, `GoalLoop` | metacognition over the scorer weights; scoring, selection and the goal life cycle |
| `ForkJoin`, `SkillSearch` | the channel protocol shared by search and probing; sort, local search and merge |
| `ProviderRouter`, `ProviderAliases`, `ProviderFallback` | registration, health and completion with fallback; when aliases are asked again; classified fallback with cooldowns |
| `AuditLog` | append and verify of the hash chain |
| `ConversationContext` | truncation and summarising |
| `CodeFences` | the four copies of the fence stripper |
| `SubAgents` | the sub-agent life cycle |

## Conventions

- Stateful objects are classes whose methods are proved against specification functions; protocols with
  goroutines are state machines whose runs are sequences of atomic steps in any order (`After` gives the state
  a run leads to, `Inv` what every run keeps). One step is one channel or map operation, or one locked section.
  The orchestrator's scan reads the `completed` map without a lock while workers may be writing it; the model
  takes each of these reads and writes as atomic.
- What cannot be seen from the code is a parameter: provider, registry, runner, planner and judge outcomes are
  arbitrary functions of the call number, and the clock is an arbitrary sequence of instants. Loops over Go
  maps and SQL rows without an order take an arbitrary order.
- `float64` is taken as exact reals. `math.Sqrt` is a parameter of the vector store, and each result says what
  it needs of it. Scorer weights are integers in units of 1/10000, a grid exact arithmetic
  never leaves. `strings.ToLower` covers ASCII letters only, which is all the search strings contain.
- Tables are maps; every store call is atomic and succeeds, except that an insert under an ID already taken
  fails. IDs are 36-character UUIDs of lower-case hex digits and dashes.
- SHA-256 (section 6.2 of FIPS 180-4) is any function into 64 hex digits. Nothing is assumed about
  collisions; results read "agree, or here is a collision". Timestamps follow section 5.6 of RFC 3339: a written
  one is given back by parsing and formatting it, and `SameLatestHash` is about logs of the years 0 to 9999.
- A goal-loop tick happens at one instant: the several `time.Now()` calls inside it give the same time.

## Where the code and its own words differ

The model follows the code.

- Confidence is said to drop by 10% per day after 30 days (`internal/worldmodel/store.go:338`). Each decay run
  resets `updated_at`, so this holds for a single run only. `EarlyDecayProtects` says exactly when earlier runs
  leave more, `EarlyRunExample` gives an input, and `FrequentRunsDecaySlowly` bounds what the updater's daily
  runs take: 10% in thirty days.
- Poor results are meant to shift the weights (`internal/ags/metacognition.go:155-199`). Rates low in both
  accuracy and completion move impact by 0.06, clamping cuts that to 0.05, the clamped sum fails validation and
  the old weights stay: `StallsExactly` and `PoorResultsNeverTune`. Once a weight has to be floored this can
  change: `StallsByClamping` is exact for any weights, `FlooringEndsStall` an example.
- The attempt counter should prevent endless retries (`internal/ags/executor.go:257`). That holds for the
  background loop; an explicit run leaves a goal it could not plan pending, with no bound on its attempts:
  `RunOnceHasNoAttemptLimit`.
- The audit log should detect tampering. Fields are hashed without separators, so a rewrite of a row's entry
  goes unnoticed exactly when the fields run together to the same text or the texts collide:
  `RewriteHiddenExactly`, with the example `MovedLetterUnnoticed`.
- The three fence strippers that look for a closing fence lose the last line of a fenced text exactly when no
  line after the first is a lone fence: `UnclosedFenceLosesLastLine`, with the example `TwoLinesLeaveNothing`.
  `CopiesAgreeExactly` says when the fourth copy gives the same result.
- Twenty Newton steps from x/2 do not reach the root of a very large or very small number, so an embedding of
  extreme norm is not similar to itself: `SelfMatchExactly` gives the exact condition on the norm,
  `MatchingNorms` the range in numbers, `LargeVectorMissesItself` an input.
- The goals `SystematicallyPending` looks for (pending after more than two attempts) never exist under the
  background loop, and the urgency boost for them never applies: `GoalExecutor.SystematicallyPending`,
  `BoostNeverApplies`.
- The router's own cooldown tracker is never filled, so it plays no part in health; `EnhancedFallback` makes a
  fresh tracker per call.
- `CompleteWithFallback` reports "last error" (`internal/provider/router.go:216`), but the error is that of the last
  model of the active provider, whatever the alternates asked after it answered: `ActiveError`.
- A protocol alias and its model are two names for one provider, so completion with fallback asks each *name*
  at most once but may ask one provider twice. `AliasesAskedTwiceExactly` says for which configurations it can
  happen, `FailingModelAskedAgain` gives one where it always does.

## Model

| member | source | states |
|---|---|---|
| `TaskGraphs.CompletableIsLeastFixedPoint` | internal/agent/orchestrator.go:52-65 | the tasks unlocked in as many stages as there are tasks are the least set closed under "all dependencies are in it" |
| `TaskGraphs.LateTaskHasChain` | internal/agent/orchestrator.go:58-65 | a completable task missing from stage r sits on a dependency chain of r + 1 tasks |
| `TaskGraphs.AllCompletableIffWellFormed` | internal/agent/orchestrator.go:44-115 | the completable IDs are as many as the tasks exactly when IDs are unique, dependencies exist and there is no cycle |
| `Orchestrator.EveryRunKeepsInv` | internal/agent/orchestrator.go:44-115 | every interleaving of scan, workers and join keeps the scheduler's invariant: tables agree with the history, scanned ready tasks are launched, workers' dependencies are complete |
| `Orchestrator.VerdictIsExact` | internal/agent/orchestrator.go:101-115 | at the end of any run: failure exactly when a worker failed; otherwise done exactly when the graph is well formed and deadlock exactly when not, with the least fixed point completed and nobody left running |
| `Orchestrator.IdleRoundIsFixedPoint` | internal/agent/orchestrator.go:109-113 | when a round launches nothing, the completed tasks are all that can ever be completed |
| `Orchestrator.ErrorsAreFailures` | internal/agent/orchestrator.go:86-107 | errors are collected exactly when some worker failed, in whatever order |
| `Orchestrator.StartsRespectDependencies` | internal/agent/orchestrator.go:57-83 | in every run a task starts only after each dependency finished, and its context holds every dependency's result in order |
| `Orchestrator.StartsAtMostOnce` | internal/agent/orchestrator.go:52-98 | in every run no task starts twice, and no ID does when IDs are unique |
| `Orchestrator.StartsSitOnChains` | internal/agent/orchestrator.go:52-98 | a task started in round r has a dependency chain of r + 1 tasks below it |
| `Orchestrator.RoundsBoundedByChains` | internal/agent/orchestrator.go:44-115 | a run that completes or fails has no more rounds than the longest dependency chain has tasks; a deadlock takes one idle round more to notice |
| `Orchestrator.RunsAreBounded` | internal/agent/orchestrator.go:44-115 | every run, under any schedule, is at most as long as a bound computed from the graph |
| `Orchestrator.Progress` | internal/agent/orchestrator.go:44-115 | a run without a verdict can always take another step |
| `Orchestrator.Execute` | internal/agent/orchestrator.go:32-121 | picking any enabled step until there is a verdict terminates; without errors it is done exactly on well-formed graphs, with results for exactly the completable IDs |
| `Strings.JoinAfterSplit` | internal/worldmodel/store.go:303 | joining what a split gave returns the text |
| `Strings.SplitAfterJoin` | internal/worldmodel/store.go:303 | splitting a join returns the parts when none contains the separator |
| `Strings.LowerContains` | internal/skills/registry.go:87-98 | searching in lower case finds what the text spells in any case of ASCII letters, and nothing else |
| `PathStrings.LikeIsSubstring` | internal/worldmodel/store.go:283 | LIKE with a wildcard on both sides is substring search for patterns without wildcards |
| `PathStrings.OccurrenceIsMember` | internal/worldmodel/store.go:276-284 | a UUID can occur inside a comma-joined ID path only as one of its IDs |
| `PathStrings.LikeIsMembership` | internal/worldmodel/store.go:276-284 | the cycle test on the path string is membership in the ID list, both ways |
| `PathStrings.PathRoundTrip` | internal/worldmodel/store.go:276-303 | appending ",id" to a joined path and splitting it gives the extended ID list |
| `Walks.SimplePathFromWalk` | internal/worldmodel/store.go:273-286 | a walk between two nodes can be shortened to a simple path with the same ends and no more edges |
| `KnowledgeGraph.MergeProperties` | internal/worldmodel/store.go:512-521 | incoming properties win, existing ones stay otherwise |
| `KnowledgeGraph.Store.UpsertEntity` | internal/worldmodel/store.go:79-137 | same name and type: the row is merged and its confidence averaged; otherwise a new row; referential integrity and uniqueness kept |
| `KnowledgeGraph.Store.UpsertRelation` | internal/worldmodel/store.go:140-197 | error exactly for an unknown end; the relation joins best matches of both names; a matching one has its confidence averaged; integrity kept |
| `KnowledgeGraph.Store.FindRelation` | internal/worldmodel/store.go:448-474 | finds a matching relation or there is none, an empty type matching all |
| `KnowledgeGraph.Store.GetEntityByName` | internal/worldmodel/store.go:222-241 | returns a row of highest confidence among those with the name, or the name is unknown |
| `KnowledgeGraph.Store.ApplyConfidenceDecay` | internal/worldmodel/store.go:339-357 | lowers exactly the stale rows, never below 0, and returns their number |
| `KnowledgeGraph.DecayRestsThirtyDays` | internal/worldmodel/store.go:342-348 | decaying again within 30 days changes nothing |
| `KnowledgeGraph.DecayMeans` | internal/worldmodel/store.go:342-348 | a row not updated for more than 30 days loses 0.1 a day beyond them, down to 0, and gets the date; any other row and every other field stays |
| `KnowledgeGraph.DecayRewritesTwoFields` | internal/worldmodel/store.go:342-348 | over every schedule decay rewrites the confidence and the date of update only |
| `KnowledgeGraph.ScheduleDecays` | internal/worldmodel/store.go:339-357 | what any schedule of decay runs leaves of a confidence, from the dates of the runs alone |
| `KnowledgeGraph.EarlyDecayProtects` | internal/worldmodel/store.go:337-348 | runs before t leave at least what the documented single run at t leaves, and more exactly when one of them falls after the 30 days and before t and the days charged do not use up the confidence |
| `KnowledgeGraph.EarlyRunExample` | internal/worldmodel/store.go:337-348 | full confidence with runs after 31 and 60 days keeps 0.9, where a single run after 60 days leaves 0 |
| `KnowledgeGraph.FrequentRunsDecaySlowly` | internal/worldmodel/updater.go:121-131 | with runs at most d days apart (one day by default) thirty days take at most 0.1 * d of confidence, over every schedule |
| `KnowledgeGraph.NextRowOk` | internal/worldmodel/store.go:276-284 | a row the recursive query adds again holds a simple walk from the start, one edge longer |
| `KnowledgeGraph.Store.Expand` | internal/worldmodel/store.go:276-284 | the children of a row extend its ID list by exactly the targets not yet on it, while hops remain |
| `KnowledgeGraph.GoalStaysKnown` | internal/worldmodel/store.go:273-286 | replacing a row by its children never loses the simple path looked for: some row holds a prefix of it |
| `KnowledgeGraph.ExpansionLowersWeight` | internal/worldmodel/store.go:273-286 | replacing a row by its children lowers a numeric bound on the work left, so the recursion ends |
| `KnowledgeGraph.Store.SearchPath` | internal/worldmodel/store.go:273-297 | with rows taken in any order, a hit exists exactly when a directed walk within the hop limit does |
| `KnowledgeGraph.SumConfidenceAddsUp` | internal/worldmodel/store.go:302-324 | the confidence added up over a path counts every entity once |
| `KnowledgeGraph.MeanConfidence` | internal/worldmodel/store.go:302-324 | whatever bounds hold for every confidence on the path hold for the answer's |
| `KnowledgeGraph.Store.LoadPath` | internal/worldmodel/store.go:302-334 | a hit's path string loads as all its entities, one relation per pair and the mean confidence, which lies within any bounds that hold for every entity on the path |
| `KnowledgeGraph.Store.FindPath` | internal/worldmodel/store.go:258-335 | errors exactly for unknown names; otherwise a path exactly when the two entities are joined by a walk within the limit; the path is simple, every row is loaded, one relation joins each pair, and the confidence is the mean of the path's |
| `Vectors.CauchySchwarz` | internal/memory/vector.go:145-159 | the squared dot product is at most the product of squared norms, for vectors of any length |
| `Vectors.DotConcat` | internal/memory/vector.go:148-152 | the dot product adds up one product per pair of components |
| `Vectors.DotScale` | internal/memory/vector.go:148-152 | scaling a vector scales its dot products |
| `SemanticMatch.Sqrt` | internal/worldmodel/extractor.go:253-262 | the loop computes the 20th Newton iterate from x/2, and 0 for non-positive x |
| `SemanticMatch.NewtonFromAbove` | internal/worldmodel/extractor.go:257-261 | from the first step on the guess is never below the true root |
| `SemanticMatch.NewtonError` | internal/worldmodel/extractor.go:257-261 | after n + 1 steps the guess exceeds the root s by at most (s/2 - 1)^2 / 2^n |
| `SemanticMatch.NewtonFromBelow` | internal/worldmodel/extractor.go:257-261 | after n + 1 steps the guess is still at least (1 + x/4) / 2^n |
| `SemanticMatch.CosineSimilarity` | internal/worldmodel/extractor.go:235-251 | the loop computes the cosine with that root, 0 for unequal lengths and zero vectors |
| `SemanticMatch.CosineWithin` | internal/worldmodel/extractor.go:235-251 | similarities lie in [-1, 1] although the root is approximate |
| `SemanticMatch.CosineTimesRoots` | internal/worldmodel/extractor.go:235-251 | similarity times the two computed roots is the dot product; 0 for unequal lengths and zero vectors |
| `SemanticMatch.MatchIsGenuine` | internal/worldmodel/extractor.go:202-251 | similarity above 0.9 implies a positive dot product whose square exceeds 0.81 times the squared norms |
| `SemanticMatch.RatioSquares` | internal/worldmodel/extractor.go:257-261 | each step squares the ratio (guess - root) / (guess + root), starting from (s - 2) / (s + 2) |
| `SemanticMatch.SelfMatchExactly` | internal/worldmodel/extractor.go:225-262 | a vector of norm s matches itself exactly when r = ((s - 2) / (s + 2))^(2^20) has r^2 + 1 > 38 r |
| `SemanticMatch.MatchingNormsAreAnInterval` | internal/worldmodel/extractor.go:225-262 | whatever lies between two matching norms matches |
| `SemanticMatch.MatchingNorms` | internal/worldmodel/extractor.go:225-262 | norms from 1/250000 to 1000000 match themselves, norms from 1200000 up or 1/300000 down do not |
| `SemanticMatch.LargeVectorMissesItself` | internal/worldmodel/extractor.go:225-262 | the one-dimensional vector 1200000 is not similar to itself |
| `SemanticMatch.FindSemanticallySimilar` | internal/worldmodel/extractor.go:202-232 | returns the first candidate similar to the query, or there is none |
| `VectorStore.CosineSimilarity` | internal/memory/vector.go:145-159 | the loop computes the cosine over the common prefix, 0 when either norm is 0 |
| `VectorStore.CosineTimesRoots` | internal/memory/vector.go:145-159 | similarity times the two roots is the dot product of the common prefixes, and 0 when a prefix has no length |
| `VectorStore.SelfCosine` | internal/memory/vector.go:145-159 | with an exact root a vector of some length has similarity 1 to itself |
| `VectorStore.CosineBounded` | internal/memory/vector.go:145-159 | similarities lie in [-1, 1] for vectors of any lengths, given roots not below the true ones |
| `VectorStore.CosineSymmetric` | internal/memory/vector.go:145-159 | similarity does not depend on the order of its arguments |
| `VectorStore.CosineScales` | internal/memory/vector.go:145-159 | scaling a vector by a positive factor does not change its similarities, given exact roots of the two norms |
| `VectorStore.VectorStore.Add` | internal/memory/vector.go:44-54 | vectors of another dimension are skipped; every stored vector keeps the store's dimension and its document |
| `VectorStore.VectorStore.SearchWithScores` | internal/memory/vector.go:100-142 | the hits are the first k of a descending arrangement of all stored entries; none when the query has another dimension |
| `VectorStore.VectorStore.Search` | internal/memory/vector.go:58-97 | returns the documents of such hits, in the same order |
| `VectorStore.TopKMeans` | internal/memory/vector.go:81-97 | hence min(k, n) different entries in descending order, and every entry left out scores no more than any returned |
| `VectorStore.StoredQueryFound` | internal/memory/vector.go:58-142 | searching for a stored vector finds a first hit of score 1, if roots are exact for it and not too small for the others |
| `RateLimiter.RateLimiter.Allow` | internal/security/ratelimit.go:31-54 | grants exactly when fewer than maxRequests of the session's grants so far, over its whole history, lie in (now - window, now] |
| `RateLimiter.PruneKeepsExactly` | internal/security/ratelimit.go:39-45 | pruning keeps as many times as lie after now - window |
| `RateLimiter.DueCounts` | internal/security/ratelimit.go:39-54 | a call is due exactly when fewer than maxRequests grants of the session lie in (now - window, now] |
| `RateLimiter.RateLimiter.Cleanup` | internal/security/ratelimit.go:57-77 | a session is kept exactly when one of its grants lies in (now - window, now], with as many times as there are such grants; the history of grants stays |
| `RateLimiter.OthersDoNotMatter` | internal/security/ratelimit.go:31-77 | cleanups and other sessions' calls, inserted anywhere in a run, change none of a session's grants |
| `RateLimiter.NoWindowOverflows` | internal/security/ratelimit.go:31-54 | over any run no interval (x - window, x] holds more than maxRequests grants of a session |
| `WeightTuning.AdjustWeights` | internal/ags/metacognition.go:149-215 | the step-by-step adjustment, flooring and rounding compute the target function |
| `WeightTuning.CycleMoves` | internal/ags/metacognition.go:149-197 | by how much each weight moves under every combination of the four conditions, for exact sums and a cycle that floors no weight |
| `WeightTuning.TargetMeans` | internal/ags/metacognition.go:149-215 | for any weights each proposed one is, to the nearest unit, the share its shifted and floored value has of all five |
| `WeightTuning.EasyCyclesShift` | internal/ags/metacognition.go:167-172 | n <= 9 cycles that only find goals too easy take the defaults to impact and novelty + 0.02 n, feasibility and urgency - 0.02 n |
| `WeightTuning.MeasureGoals` | internal/ags/metacognition.go:57-79 | completion rate, and mean accuracy over the goals that can be rated, 1 when none can |
| `WeightTuning.MeasureMeans` | internal/ags/metacognition.go:57-79 | the rate is the completed share of all ended goals; the mean accuracy lies between the smallest and largest rated ratio, 1 without any |
| `WeightTuning.RatedAddUp` | internal/ags/metacognition.go:66-72 | accuracies and counts add up over any split of the goals |
| `WeightTuning.RatedIndices` | internal/ags/metacognition.go:67 | the count is the number of goals with an actual value and a positive expected one |
| `WeightTuning.TargetValidates` | internal/ags/metacognition.go:149-215 | the target itself always validates |
| `WeightTuning.PriorityScorer.Run` | internal/ags/metacognition.go:40-128 | a cycle measures the goals, moves the weights by the specification and reports old, new, difference and whether an improvement goal is due |
| `WeightTuning.NormalizedValidates` | internal/ags/metacognition.go:200-214 | normalising and rounding is off by at most two units whatever the weights were |
| `WeightTuning.OnlyClampingKeepsOldWeights` | internal/ags/metacognition.go:88-96 | keeping the old weights means that some weight was to move by more than 0.05 |
| `WeightTuning.EveryRunKeepsBounds` | internal/ags/metacognition.go:81-96 | over all runs from the defaults: the sum stays within 0.001 of 1, no weight falls below 0.0091, no cycle moves one by more than 0.05 |
| `WeightTuning.StallsExactly` | internal/ags/metacognition.go:81-96 | for exact sums and a cycle that floors no weight, exactly when the cycle leaves the weights as they were |
| `WeightTuning.SumsStayExact` | internal/ags/metacognition.go:149-215 | over all runs, sums are exact up to the first cycle that floors a weight |
| `WeightTuning.StallsByClamping` | internal/ags/metacognition.go:81-96 | for any weights a cycle leaves them as they were exactly when the target is where they are, or what clamping cuts off throws the sum out of tolerance |
| `WeightTuning.FlooringEndsStall` | internal/ags/metacognition.go:155-199 | poor results stall at impact 0.16 but move the weights at impact 0.06, where flooring replaces clamping |
| `WeightTuning.PoorResultsNeverTune` | internal/ags/metacognition.go:149-199 | cycles poor in accuracy and completion never change the defaults, however many |
| `GoalLoop.ScoreIsBounded` | internal/ags/scorer.go:85-150 | with any reachable weights a goal's score lies between 0 and 1.0009 |
| `GoalLoop.UrgencyDecays` | internal/ags/scorer.go:105-117 | of two goals with the same boost the younger is at least as urgent, strictly so exactly while it has any urgency |
| `GoalLoop.ScoreFollowsValueAndParent` | internal/ags/scorer.go:85-140 | expected value counts with the weight of impact; a Tier 0 parent adds 0.3 of the weight of alignment |
| `GoalLoop.ScoreFollowsAge` | internal/ags/scorer.go:85-117 | a day of age costs 0.1 of the weight of urgency for five days, then nothing |
| `GoalLoop.ScoreFollowsAttempts` | internal/ags/scorer.go:123-126 | n attempts cost n / (n + 1) of the weight of novelty |
| `GoalLoop.FreshGoalScore` | internal/ags/scorer.go:85-150 | under the default weights a new goal without parent scores 0.44 + 0.3 times its expected value |
| `GoalLoop.BoostNeverApplies` | internal/ags/scorer.go:105-117 | under the background loop's invariant no pending goal gets the boost for deferral |
| `GoalLoop.GoalExecutor.SelectNext` | internal/ags/executor.go:64-89 | rescores exactly the pending goals and returns one of highest score, none exactly when no score exceeds -1 |
| `GoalLoop.RescoringMeans` | internal/ags/executor.go:64-89 | a pending goal gets its score and date, nothing else changes |
| `GoalLoop.GoalExecutor.Tick` | internal/ags/executor.go:245-282 | works exactly when a goal is selectable, gives a top-scored goal its outcome, lowers the remaining attempts, never touches ended goals |
| `GoalLoop.GoalExecutor.Execute` | internal/ags/executor.go:144-235 | active, then completed, abandoned after the third attempt, or pending again |
| `GoalLoop.AttemptDecides` | internal/ags/executor.go:144-281 | completed with value and time exactly on success, abandoned exactly on the third failure, pending otherwise; an explicit run without a plan only counts the attempt |
| `GoalLoop.GoalExecutor.RunOnce` | internal/ags/executor.go:295-318 | the explicit run selects and works like the loop, but leaves a goal it could not plan as it is |
| `GoalLoop.GoalExecutor.Save` | internal/ags/store.go:49-76 | a new goal arrives under a free ID only |
| `GoalLoop.GoalExecutor.RunUntilQuiet` | internal/ags/executor.go:238-291 | with no new goals the loop goes quiet after at most three working ticks per pending goal |
| `GoalLoop.BudgetBound` | internal/ags/executor.go:238-291 | the attempts left are at most three per pending goal |
| `GoalLoop.QuietMeansNonePending` | internal/ags/executor.go:64-89 | with reachable weights the loop is quiet exactly when nothing is pending |
| `GoalLoop.GoalExecutor.SystematicallyPending` | internal/ags/store.go:174-183 | finds the goals pending after more than two attempts; under the loop's invariant none |
| `GoalLoop.RunOnceHasNoAttemptLimit` | internal/ags/executor.go:295-318 | explicit runs that fail to plan keep a goal pending for any number of attempts, and break the loop's invariant exactly from the third on |
| `GoalLoop.ThirdAttemptSettles` | internal/ags/executor.go:206-281 | the background loop settles a goal by its third attempt |
| `ForkJoin.EveryRunKeepsInv` | internal/skills/registry.go:215-260 | every interleaving keeps: one message per goroutine that has sent, slots counted, closed only after all have left |
| `ForkJoin.SendNeverBlocks` | internal/provider/router.go:324-336 | whoever is about to send finds room, so the default arm of the probing send is dead |
| `ForkJoin.NoSendAfterClose` | internal/skills/registry.go:243-247 | nothing is sent once the channel is closed |
| `ForkJoin.AtMostLimitRunning` | internal/skills/registry.go:216-231 | at most maxConcurrent goroutines are between taking and giving back a slot |
| `ForkJoin.ChannelKeepsOrder` | internal/skills/registry.go:215-259 | over every continuation of a run messages stay in the order they were sent |
| `ForkJoin.NothingIsLost` | internal/skills/registry.go:215-259 | the search's receiver ends with exactly one message per goroutine, its own result or a cancellation error |
| `ForkJoin.ProbingVerdict` | internal/provider/router.go:322-362 | parallel probing returns a success exactly when some provider succeeds, and that provider's own answer |
| `ForkJoin.Progress` | internal/skills/registry.go:215-259 | no run gets stuck |
| `ForkJoin.RunsAreBounded` | internal/skills/registry.go:215-259 | every run has at most 5n + 2 steps |
| `SkillSearch.SortByScoreDesc` | internal/skills/registry.go:278-288 | the in-place loops compute the insertion-sort function |
| `SkillSearch.InsertInto` | internal/skills/registry.go:280-287 | one pass moves one element left past every smaller score |
| `Sorting.SortDescFacts` | internal/skills/registry.go:278-288 | that function is a stable descending permutation |
| `Sorting.StableOrderIsUnique` | internal/skills/registry.go:278-288 | and these properties leave no other result |
| `SkillSearch.LastOfNameIsKept` | internal/skills/registry.go:69-77 | of several skills with one name the last is registered |
| `SkillSearch.MemoryRegistry.Search` | internal/skills/registry.go:83-121 | the best `limit` of all matching skills, each listed once, in stable descending order |
| `SkillSearch.MatchScoreMeans` | internal/skills/registry.go:91-98 | 15 for a match in name and description, 10 in the name, 5 in the description, in any case; so every name match ranks above description alone |
| `SkillSearch.BestMatchesMeans` | internal/skills/registry.go:83-121 | the answer has the smaller of limit and the number of matching skills, best first, each result showing a matching skill; none left out scores more than any shown |
| `SkillSearch.MergeAnswers` | internal/skills/registry.go:247-275 | error exactly when nobody answered, the last error then; otherwise the sorted, cut merge |
| `SkillSearch.MergedAddsUp` | internal/skills/registry.go:247-259 | merging takes the messages one after the other |
| `SkillSearch.MergedOfOne` | internal/skills/registry.go:247-259 | each answer whole and of a failed registry nothing |
| `SkillSearch.EarlyCutIsHarmless` | internal/skills/registry.go:83-121 | merging answers each cut to the limit has the scores of the best of all full lists, whoever answered |
| `SkillSearch.SearchAllIsTop` | internal/skills/registry.go:200-276 | over every interleaving, when all registries answer, the scores are those of the best `limit` of all registries' full match lists |
| `ProviderRouter.OwnersFacts` | internal/provider/router.go:65-92 | a creatable model name keeps its own provider; every other registered name is a protocol standing for one |
| `ProviderRouter.MakerIsFirst` | internal/provider/router.go:65-79 | the first creatable entry of a model name makes its provider |
| `ProviderRouter.AliasIsFirst` | internal/provider/router.go:82-92 | a free protocol name goes to the first entry whose model name is registered by then, and takes its owner |
| `ProviderRouter.ProtocolStandsForFirst` | internal/provider/router.go:65-92 | when all entries could be created, to the first entry with that protocol |
| `ProviderRouter.Router.RegisterModels` | internal/provider/router.go:65-79 | one provider and one new record per creatable model name, the first entry winning |
| `ProviderRouter.Router.RegisterProtocols` | internal/provider/router.go:82-92 | protocol names not yet taken become aliases, record included |
| `ProviderRouter.Router.SetActive` | internal/provider/router.go:139-148 | switches to a registered name, else changes nothing |
| `ProviderRouter.NewRouter` | internal/provider/router.go:43-112 | fails exactly when no entry yields a provider; else names share a statistics record exactly when they share an owner |
| `ProviderRouter.Router.RecordSuccess` | internal/provider/router.go:219-231 | every record keeps telling the failures under any name sharing it since its last success; latencies keep the last twenty |
| `ProviderRouter.Router.RecordFailure` | internal/provider/router.go:233-242 | the same after a failure |
| `ProviderRouter.Router.IsHealthy` | internal/provider/router.go:244-258 | health as the call history alone decides it: at most five failures in a row, or the latest at least five minutes ago |
| `ProviderRouter.HealthMeans` | internal/provider/router.go:244-258 | unhealthy exactly when six failures or more have no success of the record behind them and the latest is less than five minutes ago |
| `ProviderRouter.Router.TryActive` | internal/provider/router.go:170-193 | asks the active provider for each model in order until one succeeds |
| `ProviderRouter.Router.TryAlternates` | internal/provider/router.go:197-216 | asks every other name that is healthy at its turn, once, until one succeeds |
| `ProviderRouter.Router.CompleteWithFallback` | internal/provider/router.go:165-217 | succeeds exactly when its last call does and stops there; active models in order, then each other name at most once and only while healthy; after a failure every name not asked was unhealthy at its turn, and the error is the last active model's |
| `ProviderAliases.AliasesAskedTwiceExactly` | internal/provider/router.go:165-217 | some run calls one provider under two names exactly when two registered names share an owner, and the active name has fewer than five fallback models or some name has another owner |
| `ProviderAliases.LoneRecordAskedOnce` | internal/provider/router.go:197-216 | with five fallback models and no name of another owner, every run asks the active name only |
| `ProviderAliases.FailingModelAskedAgain` | internal/provider/router.go:82-92 | one model m with protocol p, every call failing: every run asks m and then p, the same provider |
| `ProviderFallback.CooldownTracker.RecordFailure` | internal/provider/fallback.go:94-117 | the window keeps the failures of the last five minutes, the sixth starts a two-minute cooldown |
| `ProviderFallback.RetriableExactly` | internal/provider/fallback.go:30-62 | an error ends the active phase exactly when its text speaks of a quota or a bad request and of nothing transient |
| `ProviderFallback.RecentAgain` | internal/provider/fallback.go:104-112 | forgetting old failures at every failure loses none that counts later |
| `ProviderFallback.WindowFollowed` | internal/provider/fallback.go:94-117 | the window after a failure holds more than five exactly when that many real calls ended within five minutes of it |
| `ProviderFallback.FailureTracked` | internal/provider/fallback.go:94-117 | while a call is under two minutes the tracker has seen every failure, and the sixth has started a cooldown outlasting the call |
| `ProviderFallback.TryActiveModels` | internal/provider/fallback.go:154-210 | entries follow the model list; none follows a success or an error not worth retrying; under a clock that never goes back an entry is a skip exactly when a sixth real call within five minutes ended less than two minutes ago; at most six real calls in a call under two minutes |
| `ProviderFallback.ShortCallSkips` | internal/provider/fallback.go:164-173 | in a call under two minutes the active entries are six real calls, then skips |
| `ProviderFallback.TryOthers` | internal/provider/fallback.go:212-258 | one entry per other name, a real call exactly when healthy, until one succeeds |
| `ProviderFallback.SharedCallsBounded` | internal/provider/router.go:244-258 | in a call under two minutes an alias of the active provider is called only while the record both share has had at most five calls |
| `ProviderFallback.EnhancedFallback` | internal/provider/fallback.go:148-261 | the attempt list is a faithful log: every entry a skip or the recorded call, the last the only success, alternates once each and called only when healthy; in a call under two minutes at most six real calls under all names of the active provider together |
| `ProviderFallback.EntryMeans` | internal/provider/fallback.go:164-258 | what an entry tells: a skip nothing, a real call its error, reason and duration; and no success precedes it |
| `ProviderFallback.ReportIsLastCall` | internal/provider/fallback.go:193-261 | the result is the last entry's response, provider and model, or that all providers failed |
| `AuditLog.AuditLog.Write` | internal/audit/log.go:49-88 | appends a row chained to the latest hash; a verifying log stays one |
| `AuditLog.HashedTextLayout` | internal/audit/entry.go:24-33 | the hashed text is previous hash, time, and the four fields, each whole at its place and nothing between |
| `AuditLog.LatestLength` | internal/audit/log.go:232-239 | the latest hash of a verifying log is empty for an empty log, else 64 characters without a dash |
| `AuditLog.AuditLog.Verify` | internal/audit/log.go:92-148 | reports the first faulty row and its fault, or none exactly when all rows are sound |
| `AuditLog.BuiltLogsVerify` | internal/audit/log.go:49-148 | every log written from empty verifies |
| `AuditLog.PrefixVerifies` | internal/audit/log.go:92-148 | so does every prefix of a verifying log |
| `AuditLog.SameLatestHash` | internal/audit/entry.go:24-33 | verifying logs with the same latest hash have equal length and agree row by row on hashed fields, or two hashed strings collide |
| `AuditLog.RewriteNoticedExactly` | internal/audit/log.go:92-148 | rewriting one row's entry goes unnoticed exactly when it hashes to the same digest |
| `AuditLog.RewriteHiddenExactly` | internal/audit/entry.go:24-33 | rewriting one row's entry goes unnoticed exactly when its fields run together to the same text, or the two texts collide |
| `AuditLog.OneFieldRewriteNoticed` | internal/audit/entry.go:24-33 | rewriting exactly one field of one row is noticed, or two different texts have one digest |
| `AuditLog.MovedLetterUnnoticed` | internal/audit/entry.go:24-33 | a letter moved over a field boundary of a written row goes unnoticed |
| `ConversationContext.TruncatedIsLongestSuffix` | internal/agent/context.go:154-160 | truncation keeps the longest suffix within budget, or the last two messages |
| `ConversationContext.TokensConcat` | internal/agent/context.go:163-176 | tokens add up over messages |
| `ConversationContext.TokensOfOne` | internal/agent/context.go:163-176 | a message costs its content's count plus 4 |
| `ConversationContext.TruncateThenAppend` | internal/agent/context.go:65-115 | truncating before an append does not change the truncation after it |
| `ConversationContext.TruncateOnceSuffices` | internal/agent/context.go:65-115 | truncating after every append equals truncating the full history once |
| `ConversationContext.ContextManager.Add` | internal/agent/context.go:65-109 | the context is the truncation of the whole history, whether or not saves fail |
| `ConversationContext.ContextManager.GetMessages` | internal/agent/context.go:112-115 | returns the truncation of the whole history |
| `ConversationContext.ContextManager.SetMessages` | internal/agent/context.go:143-146 | the given messages become the history and are truncated |
| `ConversationContext.ContextManager.Truncate` | internal/agent/context.go:154-176 | the loop that drops the oldest message computes the truncation |
| `ConversationContext.ContextManager.SummarizeOldest` | internal/agent/context.go:123-135 | below four messages nothing changes, else a summary replaces all but the last two |
| `ConversationContext.SummarySurvives` | internal/agent/context.go:123-160 | a summary survives the next truncation exactly when it fits with the two messages kept |
| `CodeFences.CleanSourceResponse` | internal/toolsynth/coder.go:221-241 | the backwards scan computes the strip function |
| `CodeFences.FencedTextIsTrimmed` | internal/toolsynth/coder.go:221-226 | a fenced text without outer white space is its own trim |
| `CodeFences.FencedBodyComesBack` | internal/worldmodel/extractor.go:154-170 | a fenced text gives back its trimmed body in all copies, whatever the body |
| `CodeFences.TrimMeans` | internal/toolsynth/coder.go:221-241 | trimming gives what lies between the white space at both ends |
| `CodeFences.EndsDropTwoLines` | internal/toolsynth/designer.go:154-164 | the fourth copy keeps what lies between the first and the last line, whatever that holds |
| `CodeFences.UnfencedIsTrimmed` | internal/toolsynth/coder.go:221-241 | text without a fence in front, or of one line, is only trimmed by every copy |
| `CodeFences.UnclosedFenceLosesLastLine` | internal/perception/vision.go:192-209 | of any fenced text the lines up to the last lone fence are kept; when no line after the first is one, exactly the last line is lost, and it is not blank |
| `CodeFences.TwoLinesLeaveNothing` | internal/perception/vision.go:192-209 | an opening fence and one line leave nothing |
| `CodeFences.CopiesAgreeExactly` | internal/toolsynth/designer.go:154-164 | the copies agree exactly when the text is not fenced, ends in a lone fence, or has none after the opening |
| `SubAgents.StepKeepsInv` | internal/agents/manager.go:69-215 | every step keeps: at most maxAgents entries, running records live and with a goroutine, end time exactly when not running, result and error exactly with their status |
| `SubAgents.OutcomesAreFinal` | internal/agents/manager.go:94-120 | over every run and continuation a record leaves "running" at most once and never changes afterwards |
| `SubAgents.AtMostMaxAgents` | internal/agents/manager.go:69-84 | never more than maxAgents entries, nor more running records than entries |
| `SubAgents.LateReturnIsHarmless` | internal/agents/manager.go:94-120 | the goroutine of an agent killed, cleaned up and replaced under its ID changes no record and no entry |
| `SubAgents.SlotsAreHeld` | internal/agents/manager.go:151-215 | without a cleanup a killed or finished agent keeps its ID and slot |
| `SubAgents.AgentManager.Spawn` | internal/agents/manager.go:69-123 | succeeds exactly when there is room and the ID is free, adding one running record; a full manager says so first |
| `SubAgents.AgentManager.Finish` | internal/agents/manager.go:94-120 | the goroutine's locked part sets its own record to completed or failed with result or error and end time, and not when killed |
| `SubAgents.AgentManager.Kill` | internal/agents/manager.go:151-174 | a running agent becomes killed; a settled one stays as it is |
| `SubAgents.AgentManager.Poll` | internal/agents/manager.go:126-148 | waits exactly while the agent runs; returns a result exactly for a completed one, its own |
| `SubAgents.AgentManager.Cleanup` | internal/agents/manager.go:203-215 | removes exactly the entries not running and returns their number |
| `SubAgents.AgentManager.Count` | internal/agents/manager.go:189-200 | counts the entries with a status |

## Left out

- Language-model calls, HTTP, WebSocket, channels, Docker, Playwright, interfaces, logging, metrics: outcomes are parameters.
- SQLite itself, JSON, UUID generation and timestamps as text. Stale rows are selected by comparing times, where the code compares formatted strings.
- `float64` rounding and overflow, including rounding inside scores, cosines and weights.
- Memory-model effects of unlocked reads: the orchestrator's scan, and `Collect` reading an agent's status outside the lock.
- Regex-driven code (sanitizer, heartbeat schedules, gap detector, graph query parser) and workspace path cleaning: the behaviour lives in libraries.
- `Extract` and the graph's listing queries, `GetProviderHealth`, `StartAutoCleanup` and other timers.
- The selection of healthy providers, their maximum and the time limit in `CompleteParallel`; the model starts from the n providers chosen. A call ended by the time limit counts as one that failed.
- `SearchAll` without any registry, which is an error before anything starts; remote registries, taken to sort and cut their full match list as the local one does.
- A runner that returns neither a result nor an error; a negative `topK`, which stops the program.
- `sort.Slice` in the vector store is modelled as any descending arrangement; which of equal scores comes first is not stated.
- Branches, encryption and rows of the message database beyond their order.
- SearchAllIsTop: states the scores, not which of several equally scored results are kept, because that depends on the order of arrival.
- FindPath: says nothing about the path being shortest, because the query has a limit of one and no order.
- The placeholder packages (business, creative, money, social, planning, edge, engineering, research), pipeline counters, cost sums, response cache and configuration defaults: easy members only.
