# KITT verification model

A Dafny model of the stateful and algorithmic core of KITT, with proofs. KITT plans and
runs benchmark campaigns over language models, stores and compares the results, and has an
agent that streams logs and reports to a server. `dafny verify dfyconfig.toml` checks
everything.

## What is modelled

- **Campaign engine.** Planning, expansion and registration of runs, the run loop and its
  persistence. Methods keep a specification-only log of outside effects, and each is proved
  to perform exactly the steps that a function of configuration, world and state file gives
  (`CampaignSession`). A crash is a prefix of these steps, at any point; the next session
  starts from the last snapshot in that prefix (`CrashResume`, `CampaignTheorems`).
  Configuration and world may change from session to session. The parallel runner refines
  the sequential one, sessions of both can alternate over one state file, and its main thread
  is interleaved with the download pool in every possible way (`ParallelRunner`,
  `MixedHistory`, `PrefetchPool`, `PrefetchLoss`). What plan, run and result mean on the world's
  answers: `PlanMeaning`, `CampaignSession`, `CampaignMeaning`.
- **Discovery.** Grouping of .gguf files, the longest common prefix and the include pattern,
  Ollama tags, and how both give distinct run keys (`GgufDiscovery`, `QuantDiscovery`,
  `PatternCoverage`, `OllamaDiscovery`, `DiscoveryMeaning`).
- **Checkpointed benchmark loop.** The checkpoint file is absent, torn or valid, saves can fail,
  and sessions can crash between any two effects or in the middle of a write (`Checkpoint`,
  `CheckpointRecovery`).
- **Result stores.** The SQLite store over three tables with a small relational semantics in
  which the database chooses among all answers that SQL allows, and the JSON store with its
  cache (`ResultModel`, `SqliteTables`, `SqliteStore`, `JsonStore`, `StoreEquivalence`,
  `StoreRefinement`); what their answers are on the records' fields (`QueryMeaning`,
  `AggregateMeaning`, `StoreMeaning`).
- **Chunked output files** (`Chunking`, `Numerals`, `ChunkFiles`, `ChunkRoundTrip`,
  `ChunkMeaning`).
- **Log fan-out and heartbeat** of the agent (`LogStreamer`, `Heartbeat`, `HeartbeatRace`).
- **Ranking and statistics** (`Recommend`, `Comparison`, `ComparisonMeaning`). `Basics`,
  `Sorting`, `Picking` (lists read off other lists, by position) and `Globs` (fnmatch with
  character classes) are shared.

Classes, fields and loops follow the source; a method's `ensures` ties it to a specification
function, and the lemmas are about those functions. The modules whose names end in `Meaning`
say what these functions give in terms of fields, positions and outside answers.

## Where the code does not do what one may expect

- With bars in names two different runs can share a key (`KeysCollideExactly`,
  `PlanWithCollision`), two Ollama variants can share a quant (`TagQuantsDistinctExactly`,
  `ColonsCollide`), and two models can share a recommendation (`PairsRepresentedExactly`).
- A model listed twice is registered and started twice, because the set of known keys is
  computed before the loop (`DuplicateModelRunsTwice`; exact condition
  `AttemptedOncePerSession`).
- `passed` and `errors` of a resumed benchmark cover only the items since the resume point
  (`PassedCoversTheRestOnly`, `ErrorsCoverTheRestOnly`, `ForgottenFailure`).
- SQLite's `count` ignores a `kitt_version` filter that `query` honours
  (`CountAgreesExactly`, `VersionFilterOvercounts`), and negative limits or offsets page
  differently in the two stores (`PagingAgreesExactly`).
- The interface sorts and groups by "a field". SQLite silently drops an `order_by` outside its
  five columns, such as `kitt_version`, and then answers in any order, while the JSON store
  sorts by any field (`UnsortedQueriesAgreeExactly`). For a `group_by` outside its three
  columns SQLite raises, while the JSON store groups (`SQLiteStore.Aggregate`,
  `JsonStore.Aggregate`).
- With `max_buffer` 0 the log buffer grows without bound (`BufferBoundedExactly`).
- Beyond 10000 chunks file names no longer sort numerically, so the records come back in
  another order (`NamesSortNumerically`, `RoundTripExactly`), and the chunks that a longer
  earlier save left behind are loaded too (`SecondSave`). A base name with brackets does not
  find its own files (`OwnNamesMatchExactly`, `BracketedLosesItself`).
- An include pattern misses files in other directories, and files whose name is swallowed by
  the common prefix (`CoverageExactly`, `SecondDirectoryDiscovered`,
  `SwallowedFileDiscovered`).
- The parallel runner's download cache is filled and never read, a dry run still prefetches
  (`DryRunStillPrefetches`), and a finished prefetch can be undone by the cleanup of the run
  before (`PrefetchSurvivesExactly`, `SharedRepositoryLosesPrefetch`).
- A heartbeat settings sync and a status change are not atomic (`InterleavedSync`,
  `SafeInEveryOrder`).
- The docstring of `pareto_frontier` speaks of being better in both respects; the code, and
  the model, ask for at least as good in both and better in one.

## Model

| member | source | states |
|---|---|---|
| CampaignState.CampaignStateManager.Save | src/kitt/campaign/state_manager.py:96-121 | the campaign's state file holds exactly the saved snapshot, no other campaign's file changes |
| CampaignState.CampaignStateManager.Create | src/kitt/campaign/state_manager.py:86-94 | a new state without runs is saved at once and replaces an older file of that id |
| CampaignState.CampaignStateManager.Load | src/kitt/campaign/state_manager.py:123-142 | nothing if there is no file or it cannot be read, else a new object equal to the saved snapshot |
| CampaignState.CampaignStateManager.UpdateRun | src/kitt/campaign/state_manager.py:168-189 | only the first entry with the key is rewritten, then the new state is saved; an unknown key only saves |
| CampaignState.Conservation | src/kitt/campaign/state_manager.py:45-69 | in every run list: total = pending + running + success + failed + skipped |
| CampaignState.CountersAddUp | src/kitt/campaign/state_manager.py:51-69 | the state object's own counters, with the running runs, add up to its total |
| CampaignState.UpdateKeepsDone | src/kitt/campaign/state_manager.py:168-189 | updating an unfinished key loses no finished key and can add only that key |
| CampaignState.TerminalUpdateFinishes | src/kitt/campaign/state_manager.py:168-193 | a terminal update of a registered key makes the finished keys the old ones plus that key |
| CampaignState.CountAfterUpdate | src/kitt/campaign/state_manager.py:168-189 | an update moves exactly one entry from its old status counter to the new one |
| Planning.PlanModelRuns | src/kitt/campaign/scheduler.py:80-119 | the engine loop for one model yields one planned run per supported engine, in order |
| Planning.PlanRuns | src/kitt/campaign/scheduler.py:70-121 | the nested loops yield the plan over all models and engines |
| Planning.ExpandRun | src/kitt/campaign/runner.py:317-365 | one planned run becomes its discovered variants, or itself with an estimated size |
| Planning.ExpandRuns | src/kitt/campaign/runner.py:306-367 | the expansion loop concatenates the expansions in plan order |
| Planning.KeyInjective | src/kitt/campaign/state_manager.py:29-31 | without a bar character in model and engine, equal joined keys mean equal model, engine and quant |
| Planning.KeysCollideExactly | src/kitt/campaign/models.py:84-87 | some quants give two (model, engine) pairs one key iff one of the two joined leads starts the other |
| Planning.PlanWithCollision | src/kitt/campaign/runner.py:306-367 | two models with distinct names and one variant each, with bars in a name and a quant: the expanded plan holds two runs under one key |
| Planning.ExpandDistinct | src/kitt/campaign/runner.py:306-367 | expanded keys are pairwise distinct whenever no planned pair's lead starts another's, whatever characters names and quants hold |
| Planning.PlannedKeysDistinct | src/kitt/campaign/scheduler.py:70-121 | planning then expanding gives pairwise distinct keys when model names and engine names are distinct, model names have no bar character, and discovery gives distinct quants; quants may contain one |
| Planning.OllamaQuantsDistinct | src/kitt/campaign/runner.py:342-357 | distinct colon-free tags of one model give distinct quants |
| GgufDiscovery.FilterQuantsKeepsDistinct | src/kitt/campaign/gguf_discovery.py:244-275 | filtering keeps exactly the variants that match no skip pattern and, if given, some include pattern, and keeps names distinct |
| QuantDiscovery.GroupByQuant | src/kitt/campaign/gguf_discovery.py:87-101 | the dict of lists has the quant names by first appearance, each with its files in order |
| QuantDiscovery.CommonPrefix | src/kitt/campaign/gguf_discovery.py:299-309 | the shrinking loop returns the longest common prefix: it starts every string, and every common prefix is a prefix of it |
| QuantDiscovery.IncludePattern | src/kitt/campaign/gguf_discovery.py:107-116 | one file: itself; a shared directory: all .gguf files of it; at the root: longest common prefix and star |
| QuantDiscovery.Discover | src/kitt/campaign/gguf_discovery.py:74-130 | a failed listing gives nothing; else one variant per quant name with its files in sorted order and their pattern |
| QuantDiscovery.GroupsPartition | src/kitt/campaign/gguf_discovery.py:86-101 | the groups together are the listing as a bag, and no name occurs twice |
| QuantDiscovery.EachFileInOneVariant | src/kitt/campaign/gguf_discovery.py:74-130 | a file lies in some variant iff it is a listed .gguf file, and never in two |
| PatternCoverage.GlobStarGguf | src/kitt/campaign/gguf_discovery.py:116 | prefix*.gguf matches a text iff it starts with the prefix, ends in .gguf and is long enough for both |
| PatternCoverage.CoverageInGeneral | src/kitt/campaign/gguf_discovery.py:107-116 | for any file names, wildcards and brackets included: the pattern fetches every file of a variant iff its fixed part, read as a pattern, matches the beginning of each and leaves room for the extension |
| PatternCoverage.CoverageExactly | src/kitt/campaign/gguf_discovery.py:107-116 | for names without wildcards, in terms of the files: there is one file, or all lie under the first file's directory, or (at the root) no file's name up to its last dot starts all the others |
| PatternCoverage.CoverableIsCovered | src/kitt/campaign/gguf_discovery.py:107-116 | the same condition suffices for names with stars and question marks |
| PatternCoverage.SecondDirectoryMissed | src/kitt/campaign/gguf_discovery.py:111-113 | of two files of one name in two directories the pattern fetches the first and misses the second |
| PatternCoverage.SwallowedFileMissed | src/kitt/campaign/gguf_discovery.py:114-116 | of two root files, one's name starting the other's, the pattern misses the first and fetches the second |
| PatternCoverage.ShardedLikeWhole | src/kitt/campaign/gguf_discovery.py:41-59 | a shard gets the quant name that the unsharded file of its base gets: what the search finds in the stem, else the stem |
| PatternCoverage.SecondDirectoryDiscovered | src/kitt/campaign/gguf_discovery.py:75-122 | listing two such files in any order, discovery gives exactly one variant, with the files sorted and the pattern of the first directory, which misses the second file |
| PatternCoverage.SwallowedFileDiscovered | src/kitt/campaign/gguf_discovery.py:75-122 | listing two such root files in any order, discovery gives exactly one variant, whose pattern misses the file with the shorter name |
| PatternCoverage.CompleteShardSet | src/kitt/campaign/gguf_discovery.py:35-38 | for a complete shard set 1..n with or without a directory, whose quant name no other file has: the variant's files are the shards in numeric order and its primary file is shard 00001; its pattern matches every shard if the base has no opening bracket, and in general iff the pattern's first part matches their beginnings |
| OllamaDiscovery.Unique | src/kitt/campaign/gguf_discovery.py:161-167 | the seen-set loop keeps each tag exactly once |
| OllamaDiscovery.Variants | src/kitt/campaign/gguf_discovery.py:169-180 | the filter loop keeps exactly the wanted variants, prefixed with the model name, without repetition |
| OllamaDiscovery.DiscoverOllamaTags | src/kitt/campaign/gguf_discovery.py:147-190 | the sorted distinct wanted tags of the page, or the base tag alone if there are none or the page cannot be read |
| OllamaDiscovery.TagQuantsDistinctExactly | src/kitt/campaign/gguf_discovery.py:169-190 | discovered tags have distinct quants iff no two different wanted variants of the page agree after their last colon |
| OllamaDiscovery.ColonFreeVariantsApart | src/kitt/campaign/gguf_discovery.py:169-190 | colon-free variants are apart in that sense |
| OllamaDiscovery.ColonsCollide | src/kitt/campaign/gguf_discovery.py:159-190 | a page with colons inside variants gives two tags of one quant |
| OllamaDiscovery.DiscoveredKeysDistinct | src/kitt/campaign/runner.py:306-367 | for any repository listings and pages: discovery gives distinct quants iff every page's variants are apart, and then planned keys are distinct |
| CampaignRunner.CampaignRunner.RegisterRuns | src/kitt/campaign/runner.py:369-381 | appends a pending entry for each planned run whose key was unknown before the loop; repeated keys are appended twice |
| CampaignRunner.CampaignRunner.DownloadModel | src/kitt/campaign/runner.py:383-443 | Ollama: the tag, no repository: the given path, else the fetch's answer; only a fetch is an effect |
| CampaignRunner.CampaignRunner.TryBenchmark | src/kitt/campaign/runner.py:239-258 | result and effects of the try block: download, missing path raises, launch, cleanup after success |
| CampaignRunner.CampaignRunner.CheckSkip | src/kitt/campaign/runner.py:175-234 | the skip reason: size, then disk, then gated access, in that order; a failing gate check does not skip |
| CampaignRunner.CampaignRunner.TryRun | src/kitt/campaign/runner.py:236-304 | the try statement from the world's answers alone: with a path and a benchmark that returns a directory the record is success with it, if it raises failed with its error; a failing fetch or no path is failed; state, file and log follow, and a failure is cleaned up |
| CampaignRunner.CampaignRunner.ExecuteRun | src/kitt/campaign/runner.py:167-304 | one run in every case: the record and the first entry under its key say skipped with the reason, success with the directory, or failed with the error, as the world's answers require, and no other entry changes; exact file and log of effects |
| CampaignRunner.CampaignRunner.LoadOrCreate | src/kitt/campaign/runner.py:91-97 | the saved state for a resumed session with a readable file, else a fresh one, saved at once |
| CampaignRunner.CampaignRunner.Prepare | src/kitt/campaign/runner.py:91-107 | load or create, plan, expand, register and save: the exact state, file and log |
| CampaignRunner.CampaignRunner.FilterRemaining | src/kitt/campaign/runner.py:109-112 | exactly the planned runs whose key is not finished, in plan order |
| CampaignRunner.CampaignRunner.ExecuteAll | src/kitt/campaign/runner.py:126-128 | the loop's final state and log, and one record per remaining run, in order, each telling how that run has to end |
| CampaignRunner.CampaignRunner.Run | src/kitt/campaign/runner.py:77-165 | a whole session performs exactly SessionSteps, leaves the file completed, and returns one record per remaining run, in order, each telling how that run has to end by the world's answers |
| CampaignTheorems.AttemptedOncePerSession | src/kitt/campaign/runner.py:109-128 | a session starts each key at most once iff no unfinished key occurs twice in its plan |
| CampaignTheorems.SessionFinishesPlan | src/kitt/campaign/runner.py:91-151 | a session that reaches its end leaves every planned key finished, and finishes nothing else |
| CampaignTheorems.FinishedNeverRestarted | src/kitt/campaign/runner.py:91-151 | over any crashes and resumptions, once a terminal status is in the state file that key is never started again |
| CampaignTheorems.FinishedGrows | src/kitt/campaign/state_manager.py:96-142 | between any two moments of any history the finished keys, and the registered keys, only grow |
| CampaignTheorems.KeysStayUnique | src/kitt/campaign/runner.py:369-381 | at every moment of every history of a fresh campaign the saved keys are pairwise distinct |
| CampaignTheorems.CleanSessionsHaveDistinctPlans | src/kitt/campaign/scheduler.py:70-121 | clean names and discovery in every session give what the history theorems require |
| CampaignTheorems.DuplicateModelRunsTwice | src/kitt/campaign/runner.py:369-381 | with one model listed twice a fresh session starts the same run twice, in every world |
| CampaignTheorems.StartsBoundedByCrashes | src/kitt/campaign/runner.py:91-151 | over any history: starts <= newly finished keys + crashes, so each crash costs at most one wasted start |
| CampaignTheorems.ResultsConserved | src/kitt/campaign/result.py:33-47 | a result's total = succeeded + failed + skipped, and equals the number of remaining runs |
| CampaignTheorems.CountersAgree | src/kitt/campaign/result.py:33-47 | at session end each terminal counter of the state has grown by the matching counter of the result |
| ParallelRunner.ParallelCampaignRunner.Pass | src/kitt/campaign/parallel_runner.py:105-121 | one loop pass: await, submit the next prefetch, execute; record and state entry as the world's answers require, file and log |
| ParallelRunner.ParallelCampaignRunner.ExecutePipelined | src/kitt/campaign/parallel_runner.py:93-122 | the pipelined loop: its log, and without a timeout one record per remaining run, in order, each telling how that run has to end, and the state of the sequential loop; a timeout ends it |
| ParallelRunner.ParallelCampaignRunner.Run | src/kitt/campaign/parallel_runner.py:51-160 | the whole parallel session: log, records as the world's answers require, final file; no result iff some wait times out |
| ParallelRunner.PipelineRefinesSequential | src/kitt/campaign/parallel_runner.py:88-122 | without timeouts the main thread's effects are exactly the sequential session's; with one they are those of a sequential session that crashed there |
| ParallelRunner.CrashedPipelineIsCrashedSession | src/kitt/campaign/parallel_runner.py:88-122 | a pipelined session crashed after any number of steps has done what some crashed sequential session has done, and leaves the same file |
| MixedHistory.LifeIsSession | src/kitt/campaign/parallel_runner.py:66-122 | a session of either runner, crashed or not, is a sequential session in its starts and its file, and it ends exactly when that one does |
| MixedHistory.FinishedStaysFinished | src/kitt/campaign/parallel_runner.py:88-122 | over any history of sessions of either runner, crashed, timed out or finished: once a run's terminal status is in the state file, it is never started again |
| MixedHistory.StartsBoundedByUnended | src/kitt/campaign/parallel_runner.py:88-122 | over any such history the starts are at most the runs finished plus the sessions that crashed or timed out |
| PrefetchPool.NoBenchmarkWithoutModel | src/kitt/campaign/parallel_runner.py:93-122 | in every interleaving with the pool no benchmark launches without its model in storage, even after a cleanup removed the prefetched repository |
| PrefetchPool.PrefetchAwaited | src/kitt/campaign/parallel_runner.py:105-121 | the prefetch that a run awaited, one of its key, has finished before the run starts |
| PrefetchPool.PipelineNeverStuck | src/kitt/campaign/parallel_runner.py:93-122 | as long as the program has steps left, some step is possible |
| PrefetchPool.PipelineTerminates | src/kitt/campaign/parallel_runner.py:93-122 | every execution has at most twice as many steps as the program |
| PrefetchPool.PrefetchedExactlyOnce | src/kitt/campaign/parallel_runner.py:93-116 | when all is done each remaining run has been prefetched exactly once |
| PrefetchLoss.RemovesExactly | src/kitt/campaign/runner.py:256-295 | a run removes a repository iff it is its own, the run is not skipped, and it fails or is cleaned up after success |
| PrefetchLoss.SessionIsPiped | src/kitt/campaign/parallel_runner.py:88-122 | the whole pipelined session is a lead followed by the loop, every await follows the submission of that prefetch, and the submissions are those of the remaining runs in order |
| PrefetchLoss.PrefetchSurvivesExactly | src/kitt/campaign/parallel_runner.py:105-121 | in every such program: when the download of run n+1 succeeds, some execution starts that run without its files iff run n's steps remove their repository |
| PrefetchLoss.LossCondition | src/kitt/campaign/parallel_runner.py:105-121 | the same in terms of the runs: same repository, not skipped, failed or cleaned up |
| PrefetchLoss.SharedRepositoryLosesPrefetch | src/kitt/campaign/parallel_runner.py:93-122 | a concrete campaign (two models of one repository, cleanup on) and an execution of it that starts the second run without its prefetched files |
| PrefetchPool.DryRunStillPrefetches | src/kitt/campaign/parallel_runner.py:93-116 | a dry run fetches nothing sequentially, yet the parallel runner submits a download for every remaining run |
| Checkpoint.CheckpointManager.SaveCheckpoint | src/kitt/runners/checkpoint.py:38-66 | the file is truncated, then written with this index, hash and outputs; a failing open changes nothing, a failing dump leaves it torn |
| Checkpoint.CheckpointManager.GetLastCompletedIndex | src/kitt/runners/checkpoint.py:68-82 | last index + 1 for a readable file of this configuration, else 0 |
| Checkpoint.CheckpointManager.LoadPartialOutputs | src/kitt/runners/checkpoint.py:84-95 | the saved outputs of a readable file, else none |
| Checkpoint.CheckpointManager.ClearCheckpoint | src/kitt/runners/checkpoint.py:97-103 | an existing file is removed unless the removal fails |
| Checkpoint.YAMLBenchmark.RunItem | src/kitt/benchmarks/loader.py:46-75 | one item: if the engine answers this item's prompt, that prompt and its answer are appended, else nothing is; a save after every hundredth item and after every error |
| Checkpoint.YAMLBenchmark.ProcessPrompts | src/kitt/benchmarks/loader.py:45-75 | the loop's outputs, errors, file and log of effects |
| Checkpoint.YAMLBenchmark.Execute | src/kitt/benchmarks/loader.py:31-90 | result, file and log of a whole session from any checkpoint file; passed iff there are no errors |
| CheckpointRecovery.OutputsSurviveCrashes | src/kitt/benchmarks/loader.py:35-79 | from no checkpoint, an unreadable one or one of another configuration: after any sessions crashed anywhere, with saves failing in any way, a session that finishes returns exactly the outputs of an uninterrupted run |
| CheckpointRecovery.GoodIsSuccesses | src/kitt/benchmarks/loader.py:46-63 | those outputs are the successful items, and failures account for the rest |
| CheckpointRecovery.PassedCoversTheRestOnly | src/kitt/benchmarks/loader.py:77-90 | `passed` agrees with an uninterrupted run iff no item before the resume point fails or some item after it does |
| CheckpointRecovery.ErrorsCoverTheRestOnly | src/kitt/benchmarks/loader.py:70-86 | `errors` of an uninterrupted run are the failures before the resume point and then those reported; they agree iff no item before the resume point fails |
| CheckpointRecovery.ForgottenFailure | src/kitt/benchmarks/loader.py:70-86 | only the first item fails, a crash after its save: the resumed session reports that everything passed, an uninterrupted one does not |
| CheckpointRecovery.SessionCost | src/kitt/benchmarks/loader.py:46-75 | a crash outside a write loses at most 100 generate calls of its session |
| CheckpointRecovery.CallsBoundedByCrashes | src/kitt/benchmarks/loader.py:46-75 | crashes before the first finished session over n prompts cost at most n + 100 per crash, and n for each crash in mid-write, in total |
| CheckpointRecovery.BoundIsAttained | src/kitt/benchmarks/loader.py:65-68 | c crashes after the 100th call cost exactly n + 100c calls |
| SqliteTables.FilteredIsSelect | src/kitt/storage/sqlite_store.py:156-176 | a WHERE clause that tests rows as the filters test records selects the same records |
| SqliteTables.ArrangementIsSort | src/kitt/storage/sqlite_store.py:178-190 | with distinct keys every arrangement ORDER BY allows is the sorted sequence |
| SqliteStore.SQLiteStore.InsertBench | src/kitt/storage/sqlite_store.py:85-106 | one benchmarks row under a fresh id and one metrics row per numeric metric |
| SqliteStore.SQLiteStore.InsertAll | src/kitt/storage/sqlite_store.py:62-129 | the inserts of one record append exactly its flattening, hardware row included |
| SqliteStore.SQLiteStore.SaveResult | src/kitt/storage/sqlite_store.py:58-132 | appends the record unless its id is taken; the detail tables stay the flattening of the records |
| SqliteStore.SQLiteStore.DeleteResult | src/kitt/storage/sqlite_store.py:274-278 | removes exactly the record of the id; with cascade the tables stay the flattening; true iff it existed |
| SqliteStore.SQLiteStore.BuildConditions | src/kitt/storage/sqlite_store.py:156-176 | the loop over the filters yields one condition per allowed key, in order |
| SqliteStore.SQLiteStore.Query | src/kitt/storage/sqlite_store.py:145-208 | some legal answer to the assembled statement, each record with its id (what such an answer is on the records' fields: QueryMeaning.SqlQueryExactly) |
| SqliteStore.SQLiteStore.Count | src/kitt/storage/sqlite_store.py:280-302 | the number of rows that pass the conditions on count's columns |
| SqliteStore.SQLiteStore.GetResult | src/kitt/storage/sqlite_store.py:134-143 | the record stored under the id, if any |
| SqliteStore.SQLiteStore.Aggregate | src/kitt/storage/sqlite_store.py:228-272 | fails iff the column is not allowed; else groups, counts and the averages of the three-table join (on the records: AggregateMeaning.SqlAggregateExactly) |
| SqliteStore.CascadeIsFlattening | src/kitt/storage/schema.py:28-57 | deleting a run with cascade leaves the flattening of the other records |
| JsonStore.JsonStore.ScanResults | src/kitt/storage/json_store.py:28-54 | always what a fresh scan gives; the cache is empty or equal to it |
| JsonStore.JsonStore.SaveResult | src/kitt/storage/json_store.py:56-75 | writes one file at the built path and empties the cache |
| JsonStore.JsonStore.GetResult | src/kitt/storage/json_store.py:77-82 | the first scanned record with the id, as without a cache |
| JsonStore.JsonStore.Query | src/kitt/storage/json_store.py:84-112 | filter, stable sort by any comparable field (an absent one keeps the scan order), and slices of a fresh scan (on the records' fields: QueryMeaning.JsonQueryExactly) |
| JsonStore.JsonStore.Count | src/kitt/storage/json_store.py:180-186 | the number of scanned records that pass the filters |
| JsonStore.JsonStore.DeleteResult | src/kitt/storage/json_store.py:169-178 | removes the file of the first scanned record with the id; true iff there is one; the cache stays coherent |
| JsonStore.JsonStore.ReadBench | src/kitt/storage/json_store.py:147-152 | each metric mentioned gets the benchmark's sample once per mention |
| JsonStore.JsonStore.ReadDoc | src/kitt/storage/json_store.py:136-152 | a record raises its group's count and adds its samples |
| JsonStore.JsonStore.Aggregate | src/kitt/storage/json_store.py:128-167 | one row per group of any text, flag or absent field: its size, and each metric's average or None (on the records: AggregateMeaning.JsonAggregateExactly) |
| StoreEquivalence.JoinIsSamples | src/kitt/storage/sqlite_store.py:252-260 | the three-table join yields exactly the samples of the group's records, each once |
| StoreEquivalence.NoOrphans | src/kitt/storage/schema.py:28-57 | every benchmarks or hardware row has its run, every metrics row its benchmark |
| StoreEquivalence.MentionsDoNotMatter | src/kitt/storage/json_store.py:147-164 | naming a metric several times does not change its average |
| StoreEquivalence.AggregatesAgree | src/kitt/storage/json_store.py:128-167 | over equal bags of records both stores give the same groups, counts and averages; no samples means None in one and a missing key in the other |
| StoreRefinement.SqlQueryMeaning | src/kitt/storage/sqlite_store.py:145-208 | every legal answer is take(limit, drop(offset, sort(filter))) for interface filters and distinct keys |
| StoreRefinement.UnsortedAnswers | src/kitt/storage/sqlite_store.py:178-192 | for any other order_by, every order of the matching rows is a legal answer and nothing else is |
| StoreRefinement.UnsortedQueriesAgreeExactly | src/kitt/storage/base.py:42-51 | for any other order_by both stores answer with the same records, and whatever legal order the database picks is the JSON store's iff all matching records are equal |
| StoreRefinement.QueriesAgree | src/kitt/storage/base.py:42-51 | for the five sort columns, both stores answer a query with the same records in the same order, and that is the abstract answer |
| StoreRefinement.PagingAgreesExactly | src/kitt/storage/json_store.py:107-109 | SQL paging and slicing agree iff: for offset >= 0 the limit is absent or non-negative or nothing is left; for a negative offset it reaches past the first record, or no record is wanted, or the wanted first records recur at that distance from the end |
| StoreRefinement.PagesConcatenate | src/kitt/storage/base.py:46-47 | consecutive pages concatenate to the full answer |
| StoreRefinement.CountAgreesExactly | src/kitt/storage/sqlite_store.py:280-302 | SQLite's count(f) is the length of query(f) iff every record passing count's filters passes query's too (kitt_version is only in the latter) |
| StoreRefinement.VersionFilterOvercounts | src/kitt/storage/sqlite_store.py:280-302 | one record of another version: a kitt_version filter counts it and does not return it |
| StoreRefinement.CountsAgree | src/kitt/storage/base.py:86-87 | for interface filters both stores' counts equal the length of their queries |
| StoreRefinement.JsonSaveAddsOne | src/kitt/storage/json_store.py:56-75 | saving under a new path adds exactly the record to what a scan sees |
| StoreRefinement.JsonDeleteRemovesOne | src/kitt/storage/json_store.py:169-178 | deleting a readable file removes exactly its record |
| StoreRefinement.SqlDeleteRemovesOne | src/kitt/storage/sqlite_store.py:274-278 | deleting a run removes exactly its record |
| StoreRefinement.UnknownDeleteChangesNothing | src/kitt/storage/base.py:77-83 | a delete whose ids name no record changes nothing in either store |
| StoreRefinement.StoresStayInStep | src/kitt/storage/base.py:7-87 | any saves and deletes, of known or unknown ids, keep both stores holding the same bag of records, each under its own ids |
| StoreRefinement.SameBagAfterAnyOperations | src/kitt/storage/base.py:7-87 | two empty stores hold equal bags after any sequence of saves and deletes, of known or unknown ids |
| StoreRefinement.Perform | src/kitt/storage/base.py:10-83 | one save or delete through both stores' own methods is one step of that sequence, and a delete reports whether the record was there |
| Chunking.ChunksArePartition | src/kitt/utils/compression.py:29-56 | the chunks concatenate to the input, none is empty, each fits the limit or is a single line |
| Chunking.GreedyStaysAhead | src/kitt/utils/compression.py:34-48 | against a rival that still has lines before these to pack, greedy needs no more chunks for these alone |
| Chunking.GreedyIsOptimal | src/kitt/utils/compression.py:29-56 | no order-preserving partition under the same rule uses fewer chunks |
| ChunkFiles.ResultDirectory.WriteChunk | src/kitt/utils/compression.py:58-67 | one file under the numbered name holds the chunk's text |
| ChunkFiles.ResultDirectory.Flush | src/kitt/utils/compression.py:38-45 | writes the next chunk after those already written |
| ChunkFiles.ResultDirectory.SaveOutputs | src/kitt/utils/compression.py:14-56 | the files written are exactly the greedy chunks of the serialised outputs, and their names are returned in order |
| ChunkFiles.ResultDirectory.LoadLines | src/kitt/utils/compression.py:69-87 | the stripped non-blank lines of all matching files in sorted name order |
| ChunkFiles.ReadUndoesJoin | src/kitt/utils/compression.py:83-87 | splitting into stripped non-blank lines undoes joining newline-free records |
| ChunkFiles.NamesSortNumerically | src/kitt/utils/compression.py:62-80 | zero-padded names sort in numeric order iff there are at most 10000 chunks |
| ChunkFiles.OwnNamesMatchExactly | src/kitt/utils/compression.py:62-80 | the pattern finds the written files iff the base, as a pattern, matches its own beginning up to some `_chunk_` |
| ChunkFiles.BracketFreeFindsItself | src/kitt/utils/compression.py:79 | a base without an opening bracket does |
| ChunkFiles.BracketedLosesItself | src/kitt/utils/compression.py:79 | a base such as run[1] does not |
| ChunkRoundTrip.RoundTripExactly | src/kitt/utils/compression.py:14-87 | any number of chunks, any listing order: if the base finds itself, loading after saving gives the records and what other matching files hold, up to order; for up to 10000 chunks exactly the records iff no other matching file holds a non-blank line; for more never distinct records in order. Otherwise loading gives what it gave before the save |
| ChunkRoundTrip.LoadUndoesSave | src/kitt/utils/compression.py:14-87 | without matching files before: a base that finds itself gives back the saved values, in order for up to 10000 chunks, only up to order for more; any other base gives nothing |
| ChunkRoundTrip.SecondSave | src/kitt/utils/compression.py:14-87 | two saves under one base: loading gives the second and the first one's chunks beyond it, in that order up to 10000 chunks; some are left iff the first had more chunks |
| LogStreamer.LogStreamer.Emit | agent-package/src/kitt_agent/log_streamer.py:23-35 | new buffer, and the event appended to every queue of fewer than 200 while a full one stays as it is |
| LogStreamer.LogStreamer.Subscribe | agent-package/src/kitt_agent/log_streamer.py:37-48 | a queue with the oldest buffered lines, min(200, buffered) of them in order, replacing any of that id |
| LogStreamer.LogStreamer.Get | agent-package/src/kitt_agent/log_streamer.py:50-56 | the oldest queued frame, or a keepalive when there is none |
| LogStreamer.LogStreamer.Unsubscribe | agent-package/src/kitt_agent/log_streamer.py:57-59 | the subscriber's queue is gone, the others stay |
| LogStreamer.BufferIsLast | agent-package/src/kitt_agent/log_streamer.py:26-28 | the buffer is the last max_buffer emitted lines, and everything ever emitted if max_buffer is 0 |
| LogStreamer.BufferBoundedExactly | agent-package/src/kitt_agent/log_streamer.py:26-28 | the buffer stays within its bound for all histories iff max_buffer is not 0 |
| LogStreamer.SubsequencePositions | agent-package/src/kitt_agent/log_streamer.py:33-35 | a subsequence is a selection of strictly increasing positions |
| LogStreamer.StepIsMethod | agent-package/src/kitt_agent/log_streamer.py:23-59 | each step of the interleaving model changes buffer and queues as the methods do |
| LogStreamer.StreamsAreFaithful | agent-package/src/kitt_agent/log_streamer.py:23-64 | for every interleaving and subscriber: at most 200 queued, and received plus queued is an in-order selection of the history since the oldest line buffered at subscription, all of it iff no put met a full queue |
| Heartbeat.HeartbeatThread.SetStatus | agent-package/src/kitt_agent/heartbeat.py:88-95 | the active interval becomes the base one, or at least 60 while running; the interval invariant is kept |
| Heartbeat.HeartbeatThread.SetInterval | agent-package/src/kitt_agent/heartbeat.py:97-102 | only 10..300 is accepted; a running agent keeps its active interval |
| Heartbeat.HeartbeatThread.SyncSettings | agent-package/src/kitt_agent/heartbeat.py:70-78 | a usable interval becomes the base, and the active one with it or at least 60 |
| Heartbeat.HeartbeatThread.SendHeartbeat | agent-package/src/kitt_agent/heartbeat.py:161-214 | exact numbers of posts and re-registrations, ids after the beat, success, retry flag clear, equal non-empty ids stay equal |
| Heartbeat.AgentApp.SetAgentId | agent-package/src/kitt_agent/daemon.py:737-741 | a non-empty id replaces the daemon's report id |
| Heartbeat.HeartbeatThread.Register | agent-package/src/kitt_agent/cli.py:409-428 | a successful registration also updates the daemon |
| HeartbeatRace.AtomicBlocksKeepIntervals | agent-package/src/kitt_agent/heartbeat.py:65-102 | any sequence of uninterrupted syncs, status changes and interval changes keeps the interval invariant |
| HeartbeatRace.InterleavedSync | agent-package/src/kitt_agent/heartbeat.py:72-95 | for every interleaving of the single reads and writes of one sync and one status change, the final status and base, and the exact condition for the invariant: which stale read the last write used, and whether it matters |
| HeartbeatRace.SafeInEveryOrder | agent-package/src/kitt_agent/heartbeat.py:72-95 | every interleaving is safe iff the new interval is at least 60 or running does not change, and the agent ends up running or the interval is the old one |
| Recommend.RecommendModels | src/kitt/recommend/engine.py:21-65 | on the stored results: every candidate comes from one of the 500 latest that is the first of its model and engine and matches, with its capped, weighted, rounded score; they descend in the chosen field, min(limit, matches) of them, and none left out is better than one returned |
| Recommend.ParetoFrontier | src/kitt/recommend/engine.py:92-128 | of the recommended candidates, in order, exactly those that no other candidate equals or beats in both respects and beats in one |
| Sorting.SortIsStable | src/kitt/recommend/engine.py:57-63 | sorting keeps the order of elements of equal rank, ascending or descending |
| Recommend.OnePerKey | src/kitt/recommend/engine.py:42-47 | no two kept results share the joined key, so none share model and engine |
| Recommend.KeepsLatest | src/kitt/recommend/engine.py:37-47 | each joined key is represented by a newest result |
| Recommend.PairsRepresentedExactly | src/kitt/recommend/engine.py:42-47 | every (model, engine) pair is represented by a newest result iff no two different pairs join to one key |
| Recommend.BarsMerge | src/kitt/recommend/engine.py:45 | two results whose names hold bars: only the first is considered |
| Recommend.NothingIsCut | src/kitt/recommend/engine.py:104 | the frontier's limit of 500 never cuts a candidate |
| Recommend.RoundMonotone | src/kitt/recommend/engine.py:89 | rounding to four places, ties to even, is monotone |
| Recommend.DominanceRaisesScore | src/kitt/recommend/engine.py:79-89 | a dominating candidate's rounded composite score is at least as high |
| Recommend.FrontierIsUndominated | src/kitt/recommend/engine.py:109-126 | a candidate is on the frontier iff no candidate dominates it |
| Recommend.ExcludedIsDominatedByFrontier | src/kitt/recommend/engine.py:109-126 | every excluded candidate is dominated by a frontier member |
| Recommend.BestScoreOnFrontier | src/kitt/recommend/engine.py:92-128 | a non-empty candidate list has a frontier member of maximal score |
| Recommend.ParetoFrontierIsSound | src/kitt/recommend/engine.py:92-128 | the three together for any stored results and constraints |
| Comparison.Collect | src/kitt/reporters/comparison.py:26-33 | one entry extends exactly its own metric's list |
| Comparison.CollectAll | src/kitt/reporters/comparison.py:23-33 | the nested loops collect, per wanted metric, its numeric values over all results in order |
| Comparison.CompareMetrics | src/kitt/reporters/comparison.py:5-54 | all statistics, std_dev and cv_percent included, for exactly the wanted metrics that have values (on the results: ComparisonMeaning.ComparisonExactly) |
| Comparison.AverageBetween | src/kitt/reporters/comparison.py:38-41 | min <= avg <= max |
| Comparison.VarianceBound | src/kitt/reporters/comparison.py:45-47 | 0 <= variance <= (avg - min)(max - avg) <= range squared / 4 |
| Comparison.DeviationBound | src/kitt/reporters/comparison.py:48 | the standard deviation is at most half the range |
| Comparison.StatsPermute | src/kitt/reporters/comparison.py:36-52 | the statistics do not depend on the order of the values |
| Comparison.StatsAreBounded | src/kitt/reporters/comparison.py:36-52 | every entry: min <= avg <= max, std_dev <= range/2, cv_percent <= 50 range/avg for positive averages and 0 for average 0, a spread iff there is more than one value |
| CampaignSession.SkipsExactly | src/kitt/campaign/runner.py:175-234 | a run is skipped iff its size exceeds a positive limit, the disk is readable and too full, or the repository it fetches from is gated and this is no dry run; the first of these gives the reason |
| CampaignSession.RunEndsSo | src/kitt/campaign/runner.py:173-304 | the terminal update and the record say what the world's answers require: skipped with the reason, dry run, success with the directory, or failed with the error, the path being the tag, the given path or the fetched one |
| CampaignSession.StateEndsSo | src/kitt/campaign/runner.py:173-304 | the first entry under the run's key says the same, and every other entry is as before |
| CampaignMeaning.RegisteredExactly | src/kitt/campaign/runner.py:369-381 | registering keeps all entries and appends, in plan order, a pending one for exactly the planned keys that no entry has |
| CampaignMeaning.TodoExactly | src/kitt/campaign/runner.py:91-112 | a session runs, in plan order, exactly the planned runs without an entry that ended in success, failure or skip in the file it finds |
| CampaignMeaning.ResultsExactly | src/kitt/campaign/result.py:33-47 | succeeded, failed and skipped count exactly the runs that the world's answers let succeed, fail or be skipped, each defined without the recorded statuses |
| CampaignMeaning.CountersExactly | src/kitt/campaign/state_manager.py:51-69 | each counter of the state object is the number of entries of that status |
| CampaignMeaning.RunDoes | src/kitt/campaign/runner.py:236-295 | a run fetches iff it is tried and has a repository, starts its benchmark iff it has a path, and removes its repository iff it failed, or succeeded with cleanup on and no dry run |
| CampaignMeaning.RunInOrder | src/kitt/campaign/runner.py:236-295 | start, fetch, benchmark and removal each happen at most once and in this order |
| CampaignMeaning.PrefetchBrings | src/kitt/campaign/parallel_runner.py:93-121 | a prefetch brings exactly the files that its run needs, iff the model is found |
| CampaignMeaning.LaunchedIsMarkedRunning | src/kitt/campaign/runner.py:236-252 | at every moment of every history at which a benchmark starts, the state file says its run is running |
| PlanMeaning.PlanExactly | src/kitt/campaign/scheduler.py:70-121 | the plan is, in order, exactly the model and engine pairs whose engine has a non-empty source of the model, with the quant that the engine implies |
| PlanMeaning.FilteredExactly | src/kitt/campaign/gguf_discovery.py:244-275 | the filters keep, in order, exactly the variants that no skip pattern matches and, if names are asked for, one matches |
| PlanMeaning.ExpandOneExactly | src/kitt/campaign/runner.py:317-365 | what a planned run becomes: one run per wanted variant, one per tag under what follows its last colon, or itself, with the size that the estimates give |
| PlanMeaning.ParamsExactly | src/kitt/campaign/runner.py:306-320 | sizes are estimated from the last model of the run's name |
| DiscoveryMeaning.NameOfFile | src/kitt/campaign/gguf_discovery.py:41-59 | a file's quant name is what the search finds in its name without directory and extension, or all of that |
| DiscoveryMeaning.VariantsExactly | src/kitt/campaign/gguf_discovery.py:74-130 | each variant holds every listed .gguf file of its name as often as it is listed and nothing else, and every such name has exactly one variant |
| DiscoveryMeaning.VariantsInOrder | src/kitt/campaign/gguf_discovery.py:74-130 | variants are ordered by their first files, and the files of each are in order |
| DiscoveryMeaning.LexExactly | src/kitt/campaign/gguf_discovery.py:77 | the order of names: the first difference decides, and a proper start comes first |
| DiscoveryMeaning.TagsExactly | src/kitt/campaign/gguf_discovery.py:147-190 | for a base tag name:size the tags are, strictly ascending, name:tag for exactly the scraped tags that begin with the size, do not contain -text- and do not end in -text, or the base tag if there are none |
| CheckpointRecovery.OutputsAreAnswers | src/kitt/benchmarks/loader.py:35-90 | after any crashes, a finished session's outputs are, for exactly the prompts that the engine answers and in their order, each prompt with its own answer |
| CheckpointRecovery.ErrorsAreFailures | src/kitt/benchmarks/loader.py:46-75 | the reported errors are, ascending, exactly the items from the resume point on whose prompts raise |
| CheckpointRecovery.FinishedLeaves | src/kitt/benchmarks/loader.py:70-79 | a finished session without errors leaves no checkpoint; with errors it leaves one of this configuration that covers every failed item |
| QueryMeaning.JsonQueryExactly | src/kitt/storage/json_store.py:84-112 | the answer is the page of a rearrangement of exactly the passing records, ordered by the named field in the named direction: by text or number, each case on the field itself; without order_by the scan order |
| QueryMeaning.JsonAnswerInOrder | src/kitt/storage/json_store.py:97-105 | any page of the JSON store's answer ascends in the field, or descends with a dash |
| QueryMeaning.SqlQueryExactly | src/kitt/storage/sqlite_store.py:145-208 | every legal answer is the page of a rearrangement of exactly the records that pass the allowed filters, ordered on the field itself as asked |
| QueryMeaning.SqlAnswerInOrder | src/kitt/storage/sqlite_store.py:178-190 | any page of a legal SQL answer ascends in the column, or descends with a dash |
| QueryMeaning.CountsExactly | src/kitt/storage/sqlite_store.py:280-302 | both counts are the number of records that pass, in SQLite by the columns that count knows |
| AggregateMeaning.SamplesExactly | src/kitt/storage/json_store.py:141-152 | a group's samples are, in order, the numbers under the metric in the benchmarks of the records whose own field is the group's |
| AggregateMeaning.JsonAggregateExactly | src/kitt/storage/json_store.py:128-167 | one row per value of the field, counting its records; each average times the number of samples is their sum, and it is None iff there are none |
| AggregateMeaning.SqlAggregateExactly | src/kitt/storage/sqlite_store.py:228-272 | the same for any answer of the SQL statements, where a metric without samples is missing |
| AggregateMeaning.MeanBetween | src/kitt/storage/sqlite_store.py:251-260 | such a mean lies between any bounds of the samples |
| StoreMeaning.ScanExactly | src/kitt/storage/json_store.py:28-54 | a scan gives every readable file's record once, those outside the karr directories first, each part in the order of its listing |
| StoreMeaning.SavePathExactly | src/kitt/storage/json_store.py:56-75 | the path of a saved record from its model, engine and the first 19 characters of its timestamp, with / and : replaced; different uids give different files |
| StoreMeaning.RunsExactly | src/kitt/storage/sqlite_store.py:62-84 | the runs rows are the stored records in order, column by column |
| StoreMeaning.BenchesExactly | src/kitt/storage/sqlite_store.py:85-98 | the benchmarks rows are exactly those of the benchmarks of the stored records, with their own names and flags |
| StoreMeaning.MetricsExactly | src/kitt/storage/sqlite_store.py:99-106 | the metrics rows are exactly the numeric metrics of those benchmarks, under the benchmark's id |
| StoreMeaning.HardwareExactly | src/kitt/storage/sqlite_store.py:108-129 | the hardware rows are, in order, one for each stored record that describes its system |
| StoreMeaning.WithoutRunExactly | src/kitt/storage/sqlite_store.py:274-278 | a delete keeps exactly the other records, in order |
| ChunkMeaning.SavedExactly | src/kitt/utils/compression.py:14-67 | the written files hold consecutive stretches that cover the outputs, one serialised output per line; each is within chunk_size_mb * 1024 * 1024 unless it holds one output, and the next output would not have fitted; names are numbered and distinct, other files unchanged |
| ChunkMeaning.NameExactly | src/kitt/utils/compression.py:62 | below 10000 the name is base, _chunk_, the number on four digits, .jsonl.gz |
| ChunkMeaning.StripExactly | src/kitt/utils/compression.py:84 | stripping removes white space at both ends and nothing else |
| ChunkMeaning.LineRead | src/kitt/utils/compression.py:83-87 | a line ends at its first break, and is read stripped, or not at all if that leaves nothing |
| Globs.StarExactly | src/kitt/utils/compression.py:79 | a star matches any stretch |
| Globs.ClassExactly | src/kitt/utils/compression.py:79 | a class matches one of its characters, with ! one that is not among them |
| Globs.RangeExactly | src/kitt/utils/compression.py:79 | a range matches the characters between its ends |
| LogStreamer.StreamPositions | agent-package/src/kitt_agent/log_streamer.py:23-64 | for every interleaving: what a subscriber received and then what is queued are events of its command with the lines at strictly increasing positions of its stretch of the history, always including the first 200 of it, and all of it unless a put met a full queue |
| LogStreamer.StreamBegins | agent-package/src/kitt_agent/log_streamer.py:39-48 | a new subscriber's stretch begins at the oldest buffered line |
| Recommend.ScoreExactly | src/kitt/recommend/engine.py:67-90 | a candidate's score is 0.6 times the accuracy capped at 1 plus 0.4 times a hundredth of the throughput capped at 1, rounded to the nearest ten-thousandth with ties to even |
| Recommend.RankedRecommends | src/kitt/recommend/engine.py:21-65 | the ranked list, cut to any limit, is a recommendation in that sense |
| Recommend.FrontierPicked | src/kitt/recommend/engine.py:109-126 | the frontier reads exactly the unbeaten candidates off the list, in order |
| ComparisonMeaning.ValuesExactly | src/kitt/reporters/comparison.py:23-33 | a metric's values are its numbers in the results, each once, by result, benchmark and entry |
| ComparisonMeaning.StatsExactly | src/kitt/reporters/comparison.py:36-52 | min and max are values and bound them, avg is their mean, std_dev the root of the mean squared distance from it, cv_percent times avg is 100 std_dev or 0 for average 0 |
| ComparisonMeaning.ComparisonExactly | src/kitt/reporters/comparison.py:5-54 | exactly the wanted metrics with a number somewhere, each described by those statistics of those values |

## Left out

- Run entries are values inside a list that the state object reassigns; aliasing of one entry object from two places is not captured.
- CampaignState.CampaignStateManager.Save: a save that itself fails is not modelled; it would raise, and around a success turn the run into a failed one.
- An unreadable state file makes a resumed session start afresh; the history theorems are about files that only sessions write, which stay readable.
- Resuming with `resume=False` over an existing id is modelled as the code does it (the state starts afresh); the history theorems are about sessions that resume.
- World answers (disk, gate, download, benchmark, discovery) are functions of the run within a session, so the pool's concurrent downloads do not change disk checks in mid-session.
- Timestamps, durations, engine settings, notifications, metrics export, container cleanup and the numbers inside skip messages.
- Subprocesses, Docker, SSH, HTTP and the hub clients: their answers are parameters.
- The size and parameter parsers of the scheduler, the quant-name regular expression and fnmatch in filters are parameters; the digits of a shard suffix are ASCII.
- `find_model_path`, `_find_first_shard` and the scraping of the Ollama page.
- PatternCoverage.CoverageExactly: for file names without wildcard characters; `CoverageInGeneral` has no such condition.
- PatternCoverage.CoverableIsCovered: for file names without an opening bracket; `CoverageInGeneral` has no such condition.
- Checkpoint file: a second read that fails after the first succeeded, hash collisions of configurations, and the metrics calculated from the outputs.
- The columns of the hardware table (one opaque text), `list_results`, import and export, the Postgres store, migrations, transactions and partial commits.
- StoreRefinement.SqlQueryMeaning: for the five sort columns; every other `order_by` is the subject of `UnsortedAnswers`, without limit and offset.
- StoreRefinement.QueriesAgree: for the five sort columns; every other `order_by` is the subject of `UnsortedQueriesAgreeExactly`, without limit and offset. Records are complete and their JSON round trip is assumed; sort keys are distinct; filters are the interface's four.
- JsonStore.JsonStore.Query: sorting by `results` or `system_info` (lists and dicts, which Python refuses to compare) and by the store's internal fields is not modelled; fields that `Doc` does not have count as absent.
- StoreRefinement.Perform: a delete needs that no other stored file has the same derived id (a truncated hash in the source); with a collision `JsonStore.DeleteResult` says which file goes. The two ids given to a delete name the same record, or none.
- JsonStore.JsonStore.Aggregate: grouping by `total_time_seconds`, `results`, `system_info` or an internal field is not modelled, because the group's name is Python's text of that value.
- The order of `aggregate` rows: both answers are maps from group to row.
- gzip and JSON internals: serialised records are assumed to be free of line breaks, non-blank and free of outer white space, and white space is ASCII; sizes are bytes, exact below 2^53. `**` inside a base name, which older Path.glob rejects, is read as two stars.
- LogStreamer.StreamsAreFaithful: subscriber ids are not used twice; a second subscription under an id in use would replace the queue.
- Heartbeat payload, commands, transport security, and races of more than one sync and one status change; nothing in the repository calls `set_interval`.
- Comparison.StatsAreBounded: the square root is a parameter, required to be one at the variance.
- Floating point: metric values, scores and averages are reals.
- Web, command line, terminal, bot, chart and report layers, hardware detection, engine wrappers and certificates: presentation and foreign calls.
- `scripts/benchmark_campaign.py`: an older copy of the campaign engine.
