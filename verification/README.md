# Protocols and algorithms of `application_context`, verified

A Dafny 4.11 model of the parts of this application whose correctness is about whole runs
rather than single functions. SQL rows are finite maps and each SQL statement is one atomic
step; time, random draws, other processes and other requests are inputs or adversarial
steps. `dafny verify dfyconfig.toml` checks everything.

| files | what they model |
|---|---|
| `ExecutionPolicy`, `CrossEntityOrder`, `CrossEntity` | MRQL bounds in 64-bit integers, and the cross-entity query: a few rows per type, merged, stable-sorted and cut |
| `RandomSample` | the proportional random sample and its redraw loop |
| `BucketedQuery` | bucketed GROUP BY pages and their resumable cursor |
| `OwnershipChains`, `GroupForest`, `GroupForestLaws`, `GroupOperations` | the group ownership forest under create, re-parent, delete and merge |
| `RenderScopes` | the batch ancestry loader against the one-at-a-time walks |
| `PluginSchedules`, `ScheduleProtocol`, `ScheduleCadence` | the schedule row and its conditional statements; any number of processes racing for it; how often it runs |
| `PluginState` | concurrent enables and disables settling the stored flag |
| `PluginActivation` | startup activation over plugin dependencies |
| `ScopedAccess` | the lock-free permission snapshot, one atomic load, store or read per step |
| `DeferredHooks` | after-hooks in nested transactions |
| `BlockPositions`, `FloatPositions`, `NoteBlocks` | a note's description and its blocks; their position strings, in exact arithmetic and in float64 |
| `IcsCache`, `NestedValue`, `DownloadHistory`, `RateLimiter` | the LRU cache, the nested-path writer, the download history, the fixed-window limiter |
| `Outcomes`, `Sequences`, `IdLists` | shared vocabulary |

Code that updates state in place is a class or a method with loops, proved against a
function of the old state; the properties are then lemmas about those functions. Protocols
are transition systems: a state, a list of atomic steps, and lemmas over every behavior,
both that nothing wrong happens and that what is asked for gets done. The main answers
are also stated directly in the columns they depend on.

Where the code differs from what its documentation or a caller might expect, the model
follows the code and the exact condition is a lemma:

- The ownership walks look 100 groups far. `AcceptedReparentKeepsForestIff` and
  `MergeKeepsForestIff` say exactly when that is enough, `LongChainAdmitsCycle` and
  `LongChainMergeLeavesCycle` that the bound is tight.
- `ResolveRootScopeID` documents the sentinel for a missing group but returns its id
  (`MissingGroupRootsDiffer`); with no dangling owners it agrees with the batch loader
  exactly for the groups that exist (`RootsAgreeIff`).
- A history delete does not look at completion times, so a row refreshed in place but not
  claimed is deleted (`DeleteCanLoseRefreshed`, `DeleteSparesRefreshedIff`).
- A retry marker can be won twice: when a failed submit hands it back (`TwoWinners`), and
  when it is the row's own job id and a retry in place marks it again
  (`TwoWinnersInPlace`). Nothing else puts a marker back (`OnlyPutBacksRestore`),
  `SecondWinnerIff` says exactly when a second claim wins, and while no step puts it back
  none does (`OneWinnerPerMarker`).
- A settling write that fails for good leaves the stored flag wrong (`GivingUpDisagrees`);
  `FlagWrongIff` says exactly when the flag is wrong with nothing pending, startup
  failures included.
- A cache with a capacity below one would evict forever, so `ICSCache` requires one; a
  limiter with a limit below one still allows the first call of each window
  (`FirstCallAlwaysAllowed`), and one fed the zero time never refuses
  (`ZeroTimeIsNeverLimited`).

## Model

| member | source | states |
|---|---|---|
| ExecutionPolicy.CheckedPageOffset | application_context/mrql_execution_policy.go:105-118 | accepts a page exactly when the true product (page-1)*pageSize is within the bound, although it is computed in machine integers, and then returns that product |
| ExecutionPolicy.ValidateBounds | application_context/mrql_execution_policy.go:38-51 | refuses exactly a limit, offset or bucket limit over its maximum, and names the one it found |
| ExecutionPolicy.CrossEntityWindow | application_context/mrql_execution_policy.go:53-71 | an accepted window has the query's limit, or the smaller of default and maximum, its offset or none, and the per-type cap is their exact sum |
| ExecutionPolicy.WindowRefusedOnlyByBounds | application_context/mrql_execution_policy.go:38-71 | under policies like the two shipped ones the overflow guard never fires: a window is refused if and only if validation refuses the query |
| ExecutionPolicy.ShippedPoliciesRefuseOnlyByBounds | application_context/mrql_execution_policy.go:24-71 | so under both shipped policies |
| ExecutionPolicy.ResolveRequest | application_context/mrql_context.go:317-350 | what reaches execution has a limit within the policy, a default included, and an offset within it |
| ExecutionPolicy.ResolvedRequest | application_context/mrql_context.go:317-350 | exactly which limit and offset that is, from the request, the query or the default, and exactly when it is refused |
| ExecutionPolicy.PageRequest | application_context/mrql_context.go:317-350 | page p of size s is accepted if and only if s and (p-1)*s are within the policy, and then asks for exactly those rows |
| CrossEntityOrder.AtMostTransitive | application_context/mrql_context.go:912-947 | the ORDER BY comparator, ties and skipped columns included, is a transitive preorder |
| CrossEntityOrder.SortedIsColumnOrder | application_context/mrql_context.go:910-948 | sorted under the comparator means, in row fields: no row stands behind one it precedes in the first sortable column in which the two differ, in that column's direction |
| CrossEntityOrder.OneColumnOrder | application_context/mrql_context.go:923-934 | with one column: non-decreasing or non-increasing created, updated or, lexicographically, folded name |
| CrossEntityOrder.StableSortedIsStable | application_context/mrql_context.go:910-948 | the sort used in the model orders its input and keeps the relative order of ties |
| CrossEntityOrder.StableSortUnique | application_context/mrql_context.go:910-948 | a list has only one stable sort, so the results hold of whatever algorithm the sort library uses |
| CrossEntityOrder.StableSortIsStableSorted | application_context/mrql_context.go:910-948 | every stable sort of the items returns the model's |
| CrossEntityOrder.SortConcat | application_context/mrql_context.go:885-948 | stable-sorting a concatenation is merging the stable sorts |
| CrossEntityOrder.MergePrefix | application_context/mrql_context.go:873-877 | the first k items of a merge come from the first k items of its inputs |
| CrossEntity.CappedWindowIsFullWindow | application_context/mrql_context.go:764-962 | cross-entity refinement: the window cut from per-type prefixes of offset+limit rows is the window cut from the sorted union of all rows |
| CrossEntity.UnsortableLeadingColumnBreaksWindow | application_context/mrql_context.go:935-937 | the premise is needed: a column the comparator skips, ahead of one it uses, gives a different window |
| CrossEntity.UnionSortIsColumnSort | application_context/mrql_context.go:876-948 | the stable sort of the union holds every row once, in column order, and rows the columns do not tell apart in the order resources, notes, groups and then as fetched |
| CrossEntity.AnswerInColumns | application_context/mrql_context.go:950-992 | the answer is, type by type, positions offset to offset+limit of that sort |
| CrossEntity.ExecuteCrossEntity | application_context/mrql_context.go:777-995 | the whole fan-out: which errors it reports, which types timed out, and the typed answer as the requested window, of everything fetched and, with branches in order, of everything there is, stated over rows and columns |
| CrossEntity.SplitByType | application_context/mrql_context.go:964-992 | the typed slices hold the rows of the window, each type in global order |
| CrossEntity.PageIsSlice | application_context/mrql_context.go:317-350 | an accepted page is its slice of the sorted union |
| CrossEntity.PagesCoverThePrefix | application_context/mrql_context.go:317-372 | accepted pages 1 to n of size s are the first n*s rows of the sorted union: nothing skipped, nothing twice |
| RandomSample.TrueCount | application_context/mrql_context.go:1009-1021 | a type is never weighted below the rows it has fetched |
| RandomSample.DrawsAreProportional | application_context/mrql_context.go:1034-1043 | of the equally likely draws exactly as many fall on a type as it has rows left |
| RandomSample.ChosenIsFallenOn | application_context/mrql_context.go:1034-1043 | the type drawn is the one in whose stretch of the weights the draw lies |
| RandomSample.ChosenHasRows | application_context/mrql_context.go:1034-1043 | corollary: a draw never falls on a type with no rows left |
| RandomSample.DrawOne | application_context/mrql_context.go:1044-1054 | the draw takes one row of exactly the type whose stretch of the remaining weights it falls on, or, when that type's fetched rows are used up, takes its weight away; the other types are untouched, and the total strictly shrinks |
| RandomSample.ProportionalTake | application_context/mrql_context.go:1023-1055 | whatever the random numbers, the redraw loop ends, takes no more of a type than was fetched, and takes exactly min(k, rows fetched) |
| RandomSample.TakeIsHonouredDraws | application_context/mrql_context.go:1034-1055 | in any run of draws a type gives exactly as many rows as draws fell on it while it had a fetched row left |
| RandomSample.ProportionalRandomItems | application_context/mrql_context.go:1004-1071 | the sample has min(k, rows fetched) items: of each type's slice the first rows, as many as the run of draws from the true counts gave it |
| BucketedQuery.ExecuteBucketedQuery | application_context/mrql_context.go:608-750 | the page meets IsPage: whole buckets only, from the requested position, within 10000 items, as many as fit, with the right cursor and warnings |
| BucketedQuery.PageInItems | application_context/mrql_context.go:608-750 | in keys and items: bucket i of a page is the retained group at offset+i with its first LIMIT items, or all without one; a page has at most 200 buckets and 10000 items, stops short only at a group that does not fit, and names the next offset |
| BucketedQuery.TotalItemsAddsUp | application_context/mrql_context.go:660-717 | the item budget counts the items of all buckets shown |
| BucketedQuery.FillBuckets | application_context/mrql_context.go:654-717 | the probing loop shows each key with its first LIMIT items and stops only at the budget or at a bucket that does not fit |
| BucketedQuery.NextOffset | application_context/mrql_context.go:730-739 | the cursor counts the buckets shown, and is absent exactly past the last group |
| BucketedQuery.NormalizeGrouped | application_context/mrql_context.go:547-573 | which LIMIT reaches the bucketed executor, always between 0 and 10000, and exactly which queries are refused |
| BucketedQuery.PageUnique | application_context/mrql_context.go:608-750 | IsPage leaves no choice: two pages that meet it for the same query are equal |
| BucketedQuery.PageMakesProgress | application_context/mrql_context.go:657-717 | a page with groups ahead of it shows one, except for a bucket limit of zero or a first bucket over the budget by itself |
| BucketedQuery.CursorShowsEachGroupOnce | application_context/mrql_context.go:730-739 | following the cursor shows a contiguous run of the retained groups, each whole, once and in order, and all of them when it ends |
| BucketedQuery.CursorTerminates | application_context/mrql_context.go:730-739 | with a non-zero bucket limit a walk has no more pages than there are groups |
| BucketedQuery.CursorWalksThrough | application_context/mrql_context.go:608-750 | from the first page there is exactly one walk to a page without a cursor, every other walk is a beginning of it, and it shows the first 1000 groups, each once, in order and with its first LIMIT items, in no more pages than there are groups |
| BucketedQuery.NextOffsetAccepted | application_context/mrql_execution_policy.go:38-51 | every offset a page names passes the bounds check of the next request |
| BucketedQuery.UnlimitedOversizedBucketStalls | application_context/mrql_context.go:568-574 | why the clamp is there: without it a page can be empty and point at itself |
| OwnershipChains.ForestIffNoCycle | application_context/group_bulk_context.go:167-185 | a forest is exactly a non-dangling ownership in which no group is its own ancestor |
| GroupOperations.GroupStore.CreateGroup | application_context/group_crud_context.go:81-107 | a create is refused exactly for a missing owner, and otherwise adds one group; a forest stays one |
| GroupOperations.GroupStore.UpdateGroup | application_context/group_crud_context.go:229-257 | each refusal, and that the walk refuses a cycle exactly when the group is among the first 100 above the new owner; a forest stays one unless the group is further up than that |
| GroupOperations.GroupStore.DeleteGroupInTransaction | application_context/group_crud_context.go:521-552 | refused for a missing group or a user scope; otherwise the group goes and its children become roots; a forest stays one |
| GroupOperations.GroupStore.MergeGroups | application_context/group_bulk_context.go:20-305 | exactly when a merge is accepted, that a refused one changes nothing, the owners and user scopes it leaves, and when a forest stays one |
| GroupOperations.GroupStore.LockMergeSet | application_context/group_bulk_context.go:45-64 | the lock loop accepts exactly the lists without repetition whose groups all exist |
| GroupOperations.GroupStore.BreakRepeat | application_context/group_bulk_context.go:162-185 | the walk clears the owner of the first group it meets twice within 100 steps, and nothing else |
| GroupForestLaws.CreateKeepsForest | application_context/group_crud_context.go:81-107 | an accepted create keeps the forest |
| GroupForestLaws.DeleteKeepsForest | application_context/group_crud_context.go:531-547 | a delete keeps the forest |
| GroupForestLaws.ReparentForestIff | application_context/group_crud_context.go:229-257 | re-parenting gives a forest if and only if the group is not above its new owner |
| GroupForestLaws.AcceptedReparentKeepsForestIff | application_context/group_crud_context.go:229-257 | the walk never refuses a good re-parenting, accepts a bad one exactly when the group is more than 100 steps up, and so never on a chain of at most 101 groups |
| GroupForestLaws.LongChainAdmitsCycle | application_context/group_crud_context.go:235-252 | the bound is tight: on any chain of 102 groups a cycle is accepted |
| GroupForestLaws.MergedSurvivors | application_context/group_bulk_context.go:151-185 | after a merge no survivor is owned by a loser, the losers' children are owned by the winner, and the winner keeps its owner unless a loser stood among the first 100 above it |
| GroupForestLaws.MergeKeepsForestIff | application_context/group_bulk_context.go:151-185 | a merge leaves a forest if and only if no loser stands above the winner or the nearest one is within reach of the walk |
| GroupForestLaws.ShortChainMergeKeepsForest | application_context/group_bulk_context.go:167-185 | with at most 101 groups on the winner's chain a merge keeps the forest |
| GroupForestLaws.LongChainMergeLeavesCycle | application_context/group_bulk_context.go:167-185 | the bound is tight: merging the root of a chain of 102 groups into its bottom leaves a cycle |
| RenderScopes.ResolveRootScopeID | application_context/mrql_context.go:1957-1973 | the loop returns where a walk of at most 50 steps comes to rest |
| RenderScopes.UniqueNonZeroIDs | application_context/mrql_render_data.go:133-148 | the ids asked for, once each, in ascending order |
| RenderScopes.AllStartsGatherScopes | application_context/mrql_render_data.go:247-260 | folding the ordered rows of all starts gives each start its own scope and touches no other entry |
| RenderScopes.RenderCache.LoadRenderScopes | application_context/mrql_render_data.go:73-130 | whatever earlier calls cached, the answer is the batch scope of each id asked for; a failing query changes nothing |
| RenderScopes.BatchScopeIsWalk | application_context/mrql_render_data.go:214-265 | for existing groups of any non-dangling ownership, cycles and chains over 50 included, the batch loader and the two walks agree |
| RenderScopes.RootsAgreeIff | application_context/mrql_context.go:1957-1973 | in general the two roots agree if and only if the walk rests on a group that exists; with no dangling owners, if and only if the group asked for exists |
| RenderScopes.MissingGroupRootsDiffer | application_context/mrql_context.go:1950-1973 | the failing input: for any id without a group the walk returns the id itself and the batch loader the documented sentinel |
| RenderScopes.RestsOnChain | application_context/mrql_context.go:1957-1973 | in terms of ownership chains: the walk rests on the last group of a chain that ends within reach, and at its bound on any other |
| RenderScopes.ScopesAreOwners | application_context/mrql_context.go:1945-1973 | so the parent scope is the owner, and the root the last group of the chain or the one 50 steps up |
| PluginSchedules.ScheduleStore.ClaimPluginSchedule | application_context/plugin_schedule_context.go:127-154 | a claim wins exactly when the row is owned, due if asked, and carries no token, no instant or one more than the TTL ago; it then changes only the claim |
| PluginSchedules.ScheduleStore.CompletePluginScheduleRun | application_context/plugin_schedule_context.go:174-200 | with the caller's token on the row: outcome, count, due time and release together; otherwise nothing |
| PluginSchedules.ScheduleStore.AdvancePluginScheduleAtDispatch | application_context/plugin_schedule_context.go:208-227 | with the caller's token on the row: due time and release; otherwise nothing |
| PluginSchedules.ScheduleStore.ReleasePluginScheduleClaim | application_context/plugin_schedule_context.go:156-160 | with the caller's token on the row: release alone, so the row stays due; otherwise nothing |
| PluginSchedules.ScheduleStore.RecordPluginScheduleOutcome | application_context/plugin_schedule_context.go:345-354 | outcome and count alone, whoever holds the claim |
| PluginSchedules.ScheduleStore.RunNow | application_context/plugin_scheduler.go:235-282 | what each refusal of a manual run means, and that a started one holds the claim |
| PluginSchedules.ScheduleStore.SyncPluginSchedules | application_context/plugin_schedule_context.go:253-312 | a sync in the middle of a run moves no claim, due time or history and never clears an owner; every declared schedule has a row with the interval and overlap policy declared last, a new one due one declared interval from now; every other row, of the plugin or not, stays as it was |
| ScheduleProtocol.ClaimWinsIff | application_context/plugin_schedule_context.go:127-154 | the same of every claim in the protocol |
| ScheduleProtocol.NobodyElseHolds | application_context/plugin_schedule_context.go:127-154 | with leases kept, a claim that succeeds proves that no run holds the row |
| ScheduleProtocol.LeaseSafety | application_context/plugin_schedule_context.go:40 | over every interleaving in which claim-holding runs end within the TTL of the instant they claimed with, a row never has two holders, and the holder's token is on it |
| ScheduleProtocol.SkipRunsNeverOverlap | application_context/plugin_scheduler.go:162-349 | so no two runs that must hold the claim ever execute at once |
| ScheduleProtocol.LostClaimStaysLost | application_context/plugin_schedule_context.go:127-200 | without any lease: once another token, or none, is on the row, a run's own never comes back |
| ScheduleProtocol.LostRunTouchesNothing | application_context/plugin_schedule_context.go:156-227 | and from then on nothing that run does moves the claim or the due time |
| ScheduleProtocol.ManualRunKeepsDueTime | application_context/plugin_scheduler.go:297-349 | a manual run never moves the due time, in any behavior |
| ScheduleProtocol.ExpiredClaimIsTakenOver | application_context/plugin_schedule_context.go:127-154 | recovery: in any reachable state, whatever run left its token on an owned row, a tick wins the claim once the row is due and the claim older than the TTL |
| ScheduleProtocol.RunsGetDone | application_context/plugin_scheduler.go:162-349 | in any reachable state with an available row, a ticked or manual run left alone executes, and leaves the row recorded once, released and, if ticked, due one interval later |
| ScheduleCadence.CadenceStep | application_context/plugin_schedule_context.go:174-227 | every step, failed statements of any run included, keeps: the due time is one interval past the last re-basing, re-basings are an interval apart, and only a run claimed at or after the due time re-bases |
| ScheduleCadence.RebasingRunsAreApart | application_context/plugin_scheduler.go:162-218 | two runs whose re-basing landed re-based once each, and the later one claimed, and re-based, at least an interval after the earlier one had re-based, whatever statements of any run failed |
| ScheduleCadence.ExecutedRunsRebase | application_context/plugin_schedule_context.go:174-227 | an executed ticked run has re-based unless a statement of its own failed |
| ScheduleCadence.AtMostOnePerInterval | application_context/plugin_schedule_context.go:166-170 | at most L/every+1 runs re-base in a window of length L, however overdue the row was and whatever statements failed |
| ScheduleCadence.RunsCountsEachRunOnce | application_context/plugin_schedule_context.go:345-354 | in every behavior in which the row stays, leases kept or not, the counter has moved by the number of runs, ticked or manual, whose recording statement landed: each once, and nothing else counts |
| ScheduleCadence.FinishedRunsAreCounted | application_context/plugin_schedule_context.go:345-354 | with leases kept a finished run is among them unless a statement of its own failed |
| PluginState.AlwaysAgrees | application_context/plugin_state_context.go:141-201 | in every reachable state, also after a startup that left an enabled plugin unloaded: the column says what is loaded, or somebody is still to settle it, or a settling write, or that startup, failed with nothing settled since |
| PluginState.QuiescentAgreement | application_context/plugin_state_context.go:203-303 | when nothing is pending, and no settling write has failed for good since the last success or since a startup that agreed, the stored flag is the truth |
| PluginState.FlagWrongIff | application_context/plugin_state_context.go:188-200 | with nothing pending the flag is wrong if and only if startup or a settling failed and nothing has settled since, and the last write, by a request or a settling, is not what the last load or unload left |
| PluginState.PublishesOnlyUnloaded | plugin_system/manager.go:1752-1796 | a load never publishes over a loaded plugin |
| PluginState.GivingUpDisagrees | application_context/plugin_state_context.go:188-200 | the failing run, which the log line warns about: three failed writes after a refused disable leave the row saying off |
| PluginState.StepsRunOut | application_context/plugin_state_context.go:170-187 | an operation's own steps use up its budget and nobody else restores it, so each one ends |
| PluginState.SomebodyCanMove | application_context/plugin_state_context.go:156-157 | while anything is pending, an operation already begun can take a step |
| PluginState.RequestsTakeEffect | application_context/plugin_state_context.go:203-303 | in any reachable state with nothing pending, a request that is left alone and of which no step fails loads or unloads the plugin and leaves the column saying so |
| PluginActivation.ActivateEnabledPlugins | application_context/plugin_state_context.go:369-422 | the loaded set is the least one closed under "enabled, dependencies loaded, load succeeds"; a plugin is tried once, exactly when its dependencies end up loaded, and only after them; the rest is stalled |
| PluginActivation.UnmetDependencies | application_context/plugin_state_context.go:475-488 | empty exactly when a plugin is ready; an undiscovered one waits for nothing |
| PluginActivation.LeastIsUnique | application_context/plugin_state_context.go:356-368 | so the outcome does not depend on the order of the rows |
| PluginActivation.TriedAreNeeded | application_context/plugin_state_context.go:394-416 | whatever the rounds load belongs to every closed set |
| PluginActivation.EveryStallIsExplained | application_context/plugin_state_context.go:519-536 | the catch-all reason is never given, and each reason given is true |
| ScopedAccess.InvStep | application_context/plugin_scoped_access.go:102-256 | every atomic step keeps what each snapshot, cached or in a call's hands, says about the database history |
| ScopedAccess.AnswersAreFresh | application_context/plugin_scoped_access.go:102-132 | an answer says whether some commit had a row of the plugin with enabled and allow_scoped_principals both set, one no older than any local write invalidated before the call began, and not replaced more than 30 seconds before the call's own freshness check |
| ScopedAccess.InvalidatedWritesAreFloors | application_context/plugin_scoped_access.go:169-175 | a call that begins after an invalidation may not answer from before the write |
| ScopedAccess.RevocationIsImmediate | application_context/plugin_scoped_access.go:142-167 | after a local write has committed and invalidated, every call begun is refused unless that commit or a later one has both columns set |
| ScopedAccess.RevocationTakesAtMostTtl | application_context/plugin_scoped_access.go:70-72 | a revocation by any process is served for at most one TTL |
| ScopedAccess.CallsGetAnswers | application_context/plugin_scoped_access.go:102-132 | in any reachable state a call left alone is answered: from a cached snapshot of this generation and within the TTL, or else with what the database says now, which it caches |
| DeferredHooks.DeferredPluginHooks.Add | application_context/plugin_transaction.go:44-54 | a hook is queued with the chain that raised it, detached from the transaction |
| DeferredHooks.DeferredPluginHooks.Drain | application_context/plugin_transaction.go:64-82 | a queue is forwarded to an outer one or dispatched in order, and left empty |
| DeferredHooks.Host.RunNested | application_context/plugin_transaction.go:98-166 | an inner block adds to the outer queue exactly what it adds to the open transaction, dispatches nothing, and never reports success while aborted |
| DeferredHooks.Host.RunInTransaction | application_context/plugin_transaction.go:98-139 | the outermost block makes its surviving writes durable and then announces them, or neither |
| DeferredHooks.Host.RunScript | application_context/context.go:855-868 | a whole script of writes and blocks leaves exactly the log of the reference semantics |
| DeferredHooks.HooksAreOfDurableWrites | application_context/plugin_transaction.go:44-82 | for every tree of blocks the dispatched hooks are those of the durable writes, in order and with their own chains |
| DeferredHooks.NothingAnnouncedEarly | application_context/plugin_transaction.go:56-82 | at every point of a run what has been announced is a prefix of what is durable |
| DeferredHooks.NothingIsLost | application_context/plugin_transaction.go:98-139 | a script in which nothing fails raises nothing, and every write, however deeply nested, becomes durable and is announced once to its own chain |
| DeferredHooks.DurableInProgramOrder | application_context/plugin_transaction.go:98-139 | durable writes, and so hooks, follow program order |
| BlockPositions.LessIsLex | application_context/block_context.go:527 | the order positions are compared in is the byte-wise lexicographic one |
| BlockPositions.EvenPositionsAscend | ordering/position.go:127-187 | however many there are, the generated positions are strictly ascending, computed in exact arithmetic where the source uses float64 |
| BlockPositions.EvenPositionsAre | ordering/position.go:127-187 | where they are: the number each stands for in base 26, spread evenly, with the least and the greatest string of that width left free |
| FloatPositions.FloatPositionsAscend | ordering/position.go:127-187 | the same in float64, under any rounding that is exact on integers up to 2^53 and otherwise off by at most one part in 2^53: up to 8388608 positions they are in range and strictly ascending, and from 25 on equal to the exact ones |
| BlockPositions.Base26Ascends | ordering/position.go:177-187 | fixed-width base-26 strings sort as the numbers they stand for |
| NoteBlocks.AgreementInColumns | application_context/block_context.go:470-489 | the agreement in columns: the description is the content of the text block with the least position, the least id on ties |
| NoteBlocks.Note.CreateBlock | application_context/block_context.go:53-158 | keeps the agreement; which position and content the new block gets; creating an empty text block at any position, or a block of another type, leaves the description alone |
| NoteBlocks.EmptyTextBlockIsSafe | application_context/block_context.go:424-466 | seeding makes an empty text block harmless wherever it lands |
| NoteBlocks.Note.UpdateBlockContent | application_context/block_context.go:185-236 | keeps the agreement, changes one block, and reports a missing block or refused content |
| NoteBlocks.Note.DeleteBlock | application_context/block_context.go:272-312 | keeps the agreement, and clears the description with the last text block |
| NoteBlocks.Note.ReorderBlocks | application_context/block_context.go:315-411 | accepted exactly for distinct, non-empty, free positions of the note's own blocks; keeps the agreement |
| NoteBlocks.Note.CheckPositions | application_context/block_context.go:324-369 | what each refusal of a reorder means |
| NoteBlocks.Note.SyncFirstTextBlockToDescription | application_context/block_context.go:470-489 | establishes the agreement from any state |
| NoteBlocks.Note.RebalanceBlockPositions | application_context/block_context.go:522-547 | no block changes place, kind or content, and all get the evenly spaced positions in their order |
| NoteBlocks.EvenlySpacedKeepsOrder | application_context/block_context.go:535-546 | assigning strictly ascending positions in order is a rearrangement of positions only |
| NoteBlocks.RearrangedKeepsAgreement | application_context/block_context.go:501-517 | and such a rearrangement keeps the agreement |
| NoteBlocks.Note.UpdateDescription | application_context/basic_entity_context.go:46-92 | sets the description and the text of the first text block, and nothing else |
| NoteBlocks.Note.EditNote | application_context/note_context.go:178-195 | the same for a whole-note edit |
| IcsCache.HoldsMostRecent | application_context/calendar_cache.go:53-98 | LRU refinement: over any trace the cache holds exactly the top maxEntries of the unbounded stack of touched URLs |
| IcsCache.StackByLastTouch | application_context/calendar_cache.go:53-124 | that stack is the URLs touched since the last Clear, each once, most recent first, each with its last Set entry |
| IcsCache.HitIsLastSet | application_context/calendar_cache.go:53-98 | so a hit returns what was last set since the last clear, and a URL just set or just hit is a hit |
| IcsCache.ICSCache.Get | application_context/calendar_cache.go:53-67 | a hit returns the stored entry and counts as a touch; a miss changes nothing |
| IcsCache.ICSCache.Set | application_context/calendar_cache.go:70-98 | refreshes or inserts, evicting the least recently used, with map and list still naming the same elements |
| IcsCache.ICSCache.EvictOldest | application_context/calendar_cache.go:101-108 | drops exactly the last element from both |
| IcsCache.ICSCache.Clear | application_context/calendar_cache.go:118-124 | empties both |
| NestedValue.SetNestedValue | application_context/basic_entity_context.go:273-287 | the in-place walk leaves the same object standing for the written document |
| NestedValue.ReadsBack | application_context/basic_entity_context.go:273-287 | a read at the path returns the value |
| NestedValue.ReadsInside | application_context/basic_entity_context.go:273-287 | a longer read goes on inside the new value |
| NestedValue.DivergingReadsUnchanged | application_context/basic_entity_context.go:269-272 | nothing changes at a diverging path, also where a scalar on the way is replaced |
| NestedValue.SecondWriteWins | application_context/basic_entity_context.go:273-287 | a second write at a path erases the first |
| NestedValue.DivergingWritesCommute | application_context/basic_entity_context.go:273-287 | writes at diverging paths commute |
| DownloadHistory.HistoryStore.RecordTerminalDownload | application_context/download_history_context.go:56-134 | one row per job; a missing job id is refused; a new row counts one attempt, and an existing one takes the outcome and one more attempt unless both times are known and its own is later |
| DownloadHistory.LatestOutcomeWins | application_context/download_history_context.go:104-134 | whatever the arrival order the row is the outcome with the latest completion, the later arrival on ties, and attempts is one plus the accepted overwrites |
| DownloadHistory.HistoryStore.ClaimDownloadHistoryRetry | application_context/download_history_context.go:212-229 | a claim wins exactly when the row still carries the marker and the status that were read; a winner changes the marker and retry instant of that row alone, a loser nothing |
| DownloadHistory.HistoryStore.RetryDownload | server/api_handlers/download_history_handlers.go:155-250 | a retry that starts, in place or resubmitted, leaves its job on the row, and a resubmission starts exactly when marker and status are as read and the submit succeeds; any other retry leaves the marker it found; the recorded outcome and other rows never change |
| DownloadHistory.SecondWinnerIff | application_context/download_history_context.go:200-229 | after a winner, a second claim that read the same marker wins if and only if the marker was put back in between and has stayed, with the status the claim expects |
| DownloadHistory.OnlyPutBacksRestore | server/api_handlers/download_history_handlers.go:171-248 | with claim tokens never used before, only two steps put a marker back: the hand-back of a failed submit, by the claim still on the row, and the mark of a job that is that marker |
| DownloadHistory.TwoWinners | server/api_handlers/download_history_handlers.go:242-248 | a failing run: claim, hand-back, claim, on any row, and both claims win |
| DownloadHistory.TwoWinnersInPlace | server/api_handlers/download_history_handlers.go:171-228 | a failing run without hand-backs: on a row whose marker is its own job id, claim, mark by an in-place retry, claim, and both claims win |
| DownloadHistory.OneWinnerPerMarker | application_context/download_history_context.go:200-229 | without a step that puts the marker back at most one of the claims that read it wins |
| DownloadHistory.HandBackIsOwn | server/api_handlers/download_history_handlers.go:242-248 | corollary: a hand-back only undoes its own claim |
| DownloadHistory.HistoryStore.DeleteDownloadHistoryEntries | application_context/download_history_context.go:178-189 | a row goes if and only if it is named, visible to the caller and not claimed at or after the instant; what stays is unchanged, and the count is of rows gone |
| DownloadHistory.DeleteSparesClaimed | application_context/download_history_context.go:174-189 | corollary: a row claimed at or after the instant survives |
| DownloadHistory.DeleteCanLoseRefreshed | application_context/download_history_context.go:183-187 | a refreshed row that was not claimed does not: the statement does not look at completion times |
| DownloadHistory.DeleteSparesRefreshedIff | application_context/download_history_context.go:178-189 | refreshed rows all survive if and only if each one named and visible was also claimed since |
| DownloadHistory.HistoryStore.SweepDownloadHistory | application_context/download_history_context.go:315-375 | the log of DELETEs accounts for the table: whatever ran in between, each took out only rows that had at that moment finished before its cutoff and not been claimed since it, and nothing else, in at most 20 batches of 1000 per window; undisturbed, what is left is the old table without such rows, and of each window nothing expired is left unless its 20000 rows are used up |
| DownloadHistory.SweepSparesFresh | application_context/download_history_context.go:353-375 | whoever else is at work, a row refreshed or claimed at or after the cutoff is there after a DELETE as it was before |
| DownloadHistory.UndisturbedSweep | application_context/download_history_context.go:315-375 | with nobody else at work the table left is the old one without the ids of the log, each of which had expired |
| DownloadHistory.HistoryStore.SweepWindow | application_context/download_history_context.go:335-375 | one window, with the same accounting; undisturbed it ends with nothing expired left or with its 20000 rows used up |
| RateLimiter.MRQLGenerationRateLimiter.Allow | application_context/mrql_generation_rate_limiter.go:28-43 | the decision and the one bucket it changes |
| RateLimiter.RateBound | application_context/mrql_generation_rate_limiter.go:28-43 | however keys interleave, any half-open interval of one window allows a key at most two buckets' worth, and a bucket at most max |
| RateLimiter.RefusedOnlyWhenFull | application_context/mrql_generation_rate_limiter.go:28-43 | and nothing is refused early: less than a window before a refused call a bucket of its key opened, in which exactly max calls have been allowed |
| RateLimiter.KeysAreIndependent | application_context/mrql_generation_rate_limiter.go:32-42 | a key's bucket is what it would be had only that key called |
| RateLimiter.FirstCallAlwaysAllowed | application_context/mrql_generation_rate_limiter.go:33-36 | corollary: a limit below one does not stop the first call of a window |
| RateLimiter.ZeroTimeIsNeverLimited | application_context/mrql_generation_rate_limiter.go:33-36 | corollary: at the zero time every call opens a new bucket |

## Left out

- MRQL parsing, validation and translation, SQL text, dialects, drivers and timeouts; a branch of a query is the list of rows it would return, and may fail or time out.
- The branch order inside the database is assumed to be the comparator's on lower-cased names; database collations are not modelled.
- ORDER BY RANDOM() as a tie-break inside the cross-entity sort, and the final shuffle of the random sample.
- The public renaming of bucket keys, and database errors inside the bucket loop.
- `MergeGroups` beyond ownership, user scopes and deletion: metadata merging, tags, relations, notes, resources, backups, subtree restrictions.
- CreateGroup's late self-ownership check: a fresh id cannot be the id of an existing owner. Category and tag checks of create and update.
- Renderer data other than scopes: note types, categories and resource categories follow the same load-once pattern without ancestry.
- Schedules of other rows, the 100-row tick limit, goroutine drains, and the log and job events of a run. A row that is deleted does not come back under the same id.
- ScheduleCadence.Cadence: assumes leases kept, a fixed interval and a row that stays; a skip run whose process dies before it completes, or whose completing statement fails, leaves the due time where it was and is not among the runs spaced.
- Plugin state is that of one process; it starts as startup left it, agreeing or not, and activation overlapping operator requests is not modelled. `EnableInFlight` is one step, and is assumed to cover the whole load.
- Plugin manifests and load outcomes are fixed during an activation run; cycles dropped at discovery are simply plugins that never become ready.
- The publishing mutex of the scoped-access cache, which only removes interleavings; the cache-less path used by bare contexts; the empty plugin name.
- Hooks that write from inside a dispatch open transactions of their own; the plugin manager is present; the search cache is cleared elsewhere.
- ordering.PositionBetween: the position after the last block is a parameter of `CreateBlock`, because the agreement holds for any position.
- BlockPositions.EvenPositionsAscend: uses exact arithmetic where the source uses float64, as `EvenPositionsAre` does, so that with fewer than 25 positions a letter may be the neighbouring one; `FloatPositionsAscend` covers float64 up to 8388608 positions, and a rebalance needs only that the positions ascend.
- FloatPositions.FloatPositionsAscend: says nothing above 8388608 positions, where the products it divides are no longer known to be exact.
- NoteBlocks.Note: one note, each operation atomic, synchronising statements that succeed, positions compared bytewise; block state, mentions and visibility are not modelled.
- The HTTP side of the calendar cache, freshness checks and event parsing.
- Encoding and decoding of the metadata document around the nested-path writer, and the row lock it runs under.
- The retry handler's queue checks, whose outcomes are inputs; the owner stamping of history rows and text truncation; other requests during a sweep are an arbitrary change of the table before each DELETE.
- Roles and subtree visibility filters, entity CRUD, statistics, search, logging and configuration.
