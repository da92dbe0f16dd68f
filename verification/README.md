# Cache, query planner and downloader: a Dafny model

The repository keeps a metadata cache around yt-dlp, plans which metadata a query must acquire, and
drives downloads. This project models the parts in which state or several pieces of code have to
agree, and proves what they promise each other. `dafny verify dfyconfig.toml` checks all of it.

Code that changes state step by step is a method or a class whose fields are the tables or files it
changes, specified by a function of the old state; the lemmas are about those functions, about all
inputs or all runs. Code made of expressions is functions and lemmas.

| module | what it models |
|---|---|
| `SourceMigration`, `MetadataMigration`, `Batches`, `CacheTables`, `SqlOrder` | the two population phases of the v3 to v4 cache migration over both schemas' tables |
| `Certifier`, `CacheMigration` | the independent certifier, and the transition as a whole |
| `CacheStartup` | discovery, creation, migration, cut-over and cleanup by any number of processes that raise or are killed |
| `CacheRetention` | retention planning and execution with entity collection |
| `ProviderRegistry`, `RegistryTypes`, `FieldResolution` | the provider registry, its stored types, and field resolution by precedence |
| `LightweightTruth`, `StagedPredicates` | discarding candidates on enumeration metadata, by claims and by enumeration-stage terms |
| `Acquisition`, `LimitAcquisition` | cache-first refresh and LIMIT-aware batching |
| `FastPath`, `FastPathLosses` | screening, cached batches, the overlay of enumeration values and the final evaluation together, and where they lose rows |
| `QueryEvaluation`, `CteDependencies` | evaluation of chains of CTEs, and the field requirements the planner derives for them |
| `CteExactness`, `CteChains`, `CteLosses` | the plan preserves a body's outputs exactly when it covers the body, what that means for chains, and chains where the answer changes |
| `GroupedOutput` | what is written for a grouped main query, against what its groups computed |
| `SourceFrontier` | incremental enumeration of a source |
| `ValueReferences`, `Profiles` | reusable values and profile inheritance |
| `Continuation`, `DownloadQueue` | collection continuation and the download queue |
| `CalendarShift` | month arithmetic |
| `Options`, `Lists` | shared vocabulary |

## Where the code does less than it says

Each of these is proved, with the exact condition where one exists.

- A migration writes the final markers before it resets them. A process killed in that moment (or
  raising there with failed destinations kept) leaves an empty cache that every later start takes for
  the active one, in front of the v3 file (`CacheStartup.HollowExactly`, `KillLeavesHollowCache`). In
  every other moment a killed migration leaves a retry, a block, or the finished cache
  (`KilledMigration`), and no run loses the v3 file's content (`HistoryIsConserved`).
- The v3 contract admits stores that population refuses: timestamps without a zone, identities that are
  empty or padded, negative counts, later rows whose time is earlier (`MigrationPreservesMeaning` gives
  the exact condition, `ContractValidIsNotEnough` a store).
- Full certification refuses the migration's own output where a latest record is changed by column
  affinity, such as a duration of 12.0 (`OwnOutputCertifies`, `WholeFloatFailsCertification`).
- A cached row that is fresh is replaced when yt-dlp, asked for other ids, returns a record under its
  id (`HitIsServedExactly`, `StrayRecordReplacesHit`).
- LIMIT batches are counted before `source_index` is assigned and before the enumeration's ids and
  titles are laid over the acquired rows, on both of which the final evaluation goes. A title that
  changed since it was cached can end the first batch and leave the answer empty
  (`FastPathLosses.OldTitleLosesRow`), as can a test of `source_index` (`IndexPredicateLosesRow`). On the
  rows of a source, batching equals exhaustive acquisition at every stop if and only if no first rows
  count more than their results before all results are there (`BatchingIsExactExactly`); row by row, a
  counted row is a result at its index or nothing later is (`RowsCountExactly`). A query that does not
  read `source_index`, and reads ids and titles only where the acquired ones are those shown, is safe
  (`FastPath.UpToDateIsSafe`).
- Screening goes by the first entry of an id and the overlay by the last. No discarded candidate would be
  a result, for any query and any rows, if and only if the two show the same
  (`FastPathLosses.RepeatsAreSafeExactly`).
- Discarded candidates renumber the others. The results of every source stay what they were, but for their
  numbers, if and only if no row's number decides whether it is a result (`FastPath.RenumberingIsExactly`).
- A text literal compared with `source_index` is misread by the lightweight reading unless it already
  compares as its number (`IndexComparisonSoundExactly`). No enumeration shows a `source_index` today; the
  parser's literals for ids and titles are read as they resolve.
- In a CTE that reads a CTE, and under DISTINCT, a select term whose output has the name of a column of
  its input row takes that column, not its expression; a random term does so on any row. The plan reads
  the expression, prunes the column, and the answer changes (`CteLosses.ShadowedColumnIsLost`).
- CTE planning also misses fields read through a SELECT alias in HAVING or inside a compound ORDER BY
  expression, and the cells behind a seeded RANDOM (`HavingAliasIsLost`, `CompoundOrderIsLost`,
  `SeededDrawIsLost`). For a body the resolver accepts, whose LIMIT lets rows through and whose order
  shows, the plan preserves the required outputs for every engine and all rows if and only if it covers
  the resolved body (`CteExactness.PlanIsExact`); `PlainPlansAreSound` is the check by names.
- The rows of a grouped main query lose the mark by which a term would find its own output, and the terms
  are evaluated once more on the row of outputs. Where OFFSET is 0, LIMIT lets a row through and the
  outermost operators of the WHERE and HAVING tests do not occur in SELECT, such a query is written as
  computed exactly when every select term has an aggregate or RANDOM, or reads only columns exported under
  their own names (`GroupedOutput.WrittenExactly`); `SELECT f AS u ... GROUP BY f` writes NULL
  (`GroupedAliasIsLost`). Where SELECT repeats a test, the test can fix the values, and the condition is
  sufficient only (`SharedTestIsKept`).
- Retention takes the last success of a contribution as the maximum of texts. Expired means that every
  success is before the cutoff, whatever the cutoff, exactly when no success is later than the one with
  the last text (`CacheRetention.ExpiredExactly`); in mixed offsets a plan can select a contribution with
  a recent success (`LatestTextIsNotLatestTime`). That takes a provider with two acquisition groups; the
  one installed provider (yt_media_tools/cache_v4_ytdlp.py:69) has one.
- Removal from the queue file takes no lock. A removal is lost exactly when it is none of those that made
  the last version of the file (`DownloadQueue.LostExactly`), and only to a process that read the file
  before it and replaced it after (`UndoneByStaleReader`; `RemovalIsLost` is a run).
- The queue report reads the archive separately from archive removal; its three lists split the
  requested targets exactly when every target it takes for archived was removed (`SplitsExactly`). A
  removed id that starts with `#` takes a comment line with it in id mode (`CommentCanMatch`).
- An entry deleted below the overlap stays in the stored source ordering (`ConfirmedIsExact`,
  `DeletedTailStays`).

## Model

| member | source | states |
|---|---|---|
| `Batches.RunBatches` | yt_media_tools/cache_v3_to_v4_migration.py:252-309 | rows replayed in batches of 500, each one transaction: all of them, or exactly the batches before the one holding the refused row |
| `SourceMigration.Destination.EntityFor` | yt_media_tools/cache_entity_store.py:292-315 | get-or-create returns the id of the entity and renumbers no other |
| `SourceMigration.Destination.ImportSource` | yt_media_tools/cache_v3_to_v4_migration.py:150-234 | one source's identity, observation, numbered entries, coverage and frontier; refused exactly when a CHECK constraint refuses a row |
| `SourceMigration.Destination.PopulateSourceState` | yt_media_tools/cache_v3_to_v4_migration.py:135-251 | the phase imports every source in URL order in one transaction, or leaves the destination as it was |
| `SourceMigration.PhaseImports` | yt_media_tools/cache_v3_to_v4_migration.py:135-251 | every source reads back as in v3 (ordering, observation, coverage, frontier, kind), no row belongs to anything else, and the entities are exactly the media these rows mention |
| `MetadataMigration.ReplayStep` | yt_media_tools/cache.py:574-646 | one more record succeeds exactly when its identity and time are usable and not before its predecessor's, and then every identity holds its latest record |
| `MetadataMigration.ReplayMeaning` | yt_media_tools/cache_v3_to_v4_migration.py:252-309 | the whole replay, for any starting entities |
| `Certifier.LatestRecords` | yt_media_tools/cache_v3_to_v4_verification.py:48-56 | the overwriting pass leaves the last record of every identity, and no others |
| `Certifier.VerifyEntity` | yt_media_tools/cache_v3_to_v4_verification.py:97-146 | accepts exactly when columns, collections and acquisition row agree with the record |
| `Certifier.VerifySources` | yt_media_tools/cache_v3_to_v4_verification.py:149-231 | accepts exactly when every source reads back |
| `Certifier.Certify` | yt_media_tools/cache_v3_to_v4_verification.py:234-256 | accounting, the selected identities and the source states, all of them and nothing else |
| `Certifier.CertifiedIsSound` | yt_media_tools/cache_v3_to_v4_verification.py:71-231 | of any store, a full pass means equal media identities, every v3 fact present, every latest record held, and no observation, coverage, frontier or entry row left over |
| `Certifier.NoExtraSourceRows` | yt_media_tools/cache_v3_to_v4_verification.py:71-94 | equal counts with distinct source ids leave no room for a row of another source |
| `Certifier.NoExtraEntries` | yt_media_tools/cache_v3_to_v4_verification.py:71-94 | the same for entry rows, through the injection from v3 entries |
| `CacheMigration.ExecuteV3ToV4` | yt_media_tools/cache_v3_to_v4_migration.py:357-372 | outside the contract, population failed, certification failed, or complete, each in exactly one case |
| `CacheMigration.MigrationPreservesMeaning` | yt_media_tools/cache_v3_to_v4_migration.py:135-309 | the phases succeed exactly on migratable stores; then sources read back unchanged, nothing is added, the media are v3's, and each holds its last record in (fetched_at, source_url, video_id) order |
| `CacheMigration.RisingTimesMigrate` | yt_media_tools/cache_entity_store.py:420-432 | a store whose rows pass the constraints, with usable identities and zoned times that do not fall along the replay, is migrated |
| `CacheMigration.TwoRecordsMigrateExactly` | yt_media_tools/cache_entity_store.py:420-432 | one medium recorded twice is migrated if and only if the second record is not of an earlier instant |
| `CacheMigration.OwnOutputCertifies` | yt_media_tools/cache_v3_to_v4_verification.py:71-231 | full certification accepts the migration's own output exactly when every latest record is scalar in registered fields and unchanged by affinity |
| `CacheMigration.ContractValidIsNotEnough` | yt_media_tools/cache_v3_contract.py:65-184 | a store with a timestamp without zone satisfies the contract and cannot be populated |
| `CacheMigration.WholeFloatFailsCertification` | yt_media_tools/cache_v3_to_v4_verification.py:97-146 | the smallest store whose migration full certification refuses |
| `CacheStartup.StepKeepsExclusion` | yt_media_tools/cache_startup.py:28-42 | the startup lock has at most one holder, whoever moves, dies or waits |
| `CacheStartup.HistoryIsConserved` | yt_media_tools/cache_startup.py:73-125 | in every run the v3 file is as it was, or was unlinked while the current file held its certified image, and the current file has been complete and untouched since |
| `CacheStartup.UnlinkedHistorySurvives` | yt_media_tools/cache_startup.py:110-125 | for the real transition: what the unlinked file said, the current file said at that moment |
| `CacheStartup.MakingWasDecided` | yt_media_tools/cache_startup_policy.py:112-125 | in every run a process that migrates was authorised at its last discovery, which found a valid v3 file and nothing newer, and one that creates found nothing |
| `CacheStartup.UnlinkingWasAuthorised` | yt_media_tools/cache_startup.py:93-125 | so the v3 file goes only by a process that was authorised |
| `CacheStartup.RunningKeepsItsFile` | yt_media_tools/cache_startup.py:63-72 | once a process runs, no later step of any process harms the complete file |
| `CacheStartup.CleanupRemovesOwnFile` | yt_media_tools/cache_startup.py:106-119 | the failure cleanup is the only removal, by the lock holder, of a file that this process created since it took the lock it has held, with no process using the file and the v3 file kept |
| `CacheStartup.KilledMigration` | yt_media_tools/cache_startup.py:73-125 | what discovery says after a kill at each stage: active exactly before the markers are reset and from finalisation on, migration again exactly before anything was made, else blocked |
| `CacheStartup.HollowExactly` | yt_media_tools/cache_v3_to_v4_migration.py:113-132 | over all runs, with the lock free an active cache is hollow exactly when a process was lost in the one unprotected moment |
| `CacheStartup.ActiveIsEarned` | yt_media_tools/cache_v3_to_v4_migration.py:312-354 | every cache found active was there, was created fresh, or was validated and finalised, but for that moment |
| `CacheStartup.KillLeavesHollowCache` | yt_media_tools/cache.py:94-126 | a concrete run that ends in that state |
| `CacheStartup.Startup.DiscoverCaches` | yt_media_tools/cache_discovery.py:200-208 | candidates, newest first |
| `CacheStartup.Startup.InitialiseV4Cache` | yt_media_tools/cache.py:94-126 | ends with a complete file, or removes what it began |
| `CacheStartup.Startup.ValidateTarget` | yt_media_tools/cache_v3_to_v4_migration.py:312-341 | passes exactly when the destination is the certified image of the source, and changes nothing |
| `CacheStartup.Startup.BuildDestination` | yt_media_tools/cache_v3_to_v4_migration.py:357-372 | leaves a verified destination or one the handler removes, with the source untouched, whatever raises |
| `CacheStartup.Startup.Run` | yt_media_tools/cache_startup.py:73-125 | one start ends on a complete file or stopped, gives up the v3 file only when authorised and for its certified image, changes nothing when blocked or not authorised, and without faults starts exactly when discovery and certification allow; every intermediate state is a step of the process model |
| `CacheRetention.CacheDatabase.RemoveContributions` | yt_media_tools/cache_maintenance.py:270-293 | removes, counts and collects the affected entities as `Removed` defines, raising exactly on a bad selection |
| `CacheRetention.CacheDatabase.RemoveSources` | yt_media_tools/cache_maintenance.py:295-309 | removes the selected sources with all their rows, counts those that existed, adds the entities they named |
| `CacheRetention.CacheDatabase.CollectEntities` | yt_media_tools/cache_maintenance.py:311-317 | deletes exactly the affected entities nothing refers to, and lists them ascending |
| `CacheRetention.CacheDatabase.Execute` | yt_media_tools/cache_maintenance.py:244-328 | unauthorised, failed and rolled back whole, or done as `Executed` defines |
| `CacheRetention.RemovalLeaves` | yt_media_tools/cache_maintenance.py:270-293 | removal raises exactly on a bad selection and leaves exactly the rows nobody selected |
| `CacheRetention.RemovalCounts` | yt_media_tools/cache_maintenance.py:270-293 | the count is of distinct units that had rows, and the affected entities are theirs |
| `CacheRetention.ExecutionKeepsIntegrity` | yt_media_tools/cache_maintenance.py:244-328 | every reference still resolves after any plan |
| `CacheRetention.CollectionIsExact` | yt_media_tools/cache_maintenance.py:208-241 | an affected entity goes if and only if nothing in the final database refers to it; every other entity stays |
| `CacheRetention.CountsAreOfUnits` | yt_media_tools/cache_maintenance.py:244-328 | both reported counts are of distinct units that existed |
| `CacheRetention.OtherRowsStay` | yt_media_tools/cache_maintenance.py:244-328 | rows of units and sources nobody selected are unchanged, cascades included |
| `CacheRetention.SelectedUnitsAreGone` | yt_media_tools/cache_maintenance.py:270-293 | no selected unit of a registered provider keeps a row |
| `CacheRetention.SecondRunDoesNothing` | yt_media_tools/cache_maintenance.py:244-328 | the same plan again removes nothing and changes nothing |
| `CacheRetention.PlanRetention` | yt_media_tools/cache_maintenance.py:90-161 | a source is selected if and only if its observation is before the cutoff, a contribution of a provider asked about if and only if its success with the last text is; where that is the last success, if and only if all its successes are; it fails exactly on a missing table or a timestamp that does not read |
| `CacheRetention.ExpiredExactly` | yt_media_tools/cache_maintenance.py:118-138 | expired means that every success is before the cutoff, for every cutoff, if and only if no success is later than one with the last text |
| `CacheRetention.LatestTextIsNotLatestTime` | yt_media_tools/cache_maintenance.py:118-138 | a store of a registered provider with two groups, whose plan selects the contribution although one success is not before the cutoff |
| `CacheRetention.FreshPlanIsExecutedWhole` | yt_media_tools/cache_maintenance.py:90-161 | a fresh plan executes, and its counts are its selections |
| `ProviderRegistry.RegistryStore.Reconcile` | yt_media_tools/cache_registry_store.py:200-219 | accepted as `Reconciled` defines, or nothing changes |
| `ProviderRegistry.RegistryStore.ReconcileProvider` | yt_media_tools/cache_registry_store.py:221-373 | one provider with its groups and fields; refused exactly when a stable part differs or a storage name is taken |
| `ProviderRegistry.RegistryStore.SetProviderPolicy` | yt_media_tools/cache_registry_store.py:545-569 | enabled and priority of one provider, or nothing |
| `ProviderRegistry.RegistryStore.SetFieldOverrides` | yt_media_tools/cache_registry_store.py:571-623 | overrides of one declared field, or nothing |
| `ProviderRegistry.ReconcileAcceptsExactly` | yt_media_tools/cache_registry_store.py:200-399 | a reconcile is accepted if and only if no key is defined twice, every definition keeps what is stored of its provider, and fields of one name have one type across the definitions |
| `ProviderRegistry.ProviderExactly` | yt_media_tools/cache_registry_store.py:221-270 | when a provider is refused, and that a new one starts enabled at priority zero, numbered right after all others |
| `ProviderRegistry.SettersExactly` | yt_media_tools/cache_registry_store.py:545-623 | a setter is refused exactly for an unknown row and changes nothing but what it is given of that row |
| `ProviderRegistry.ReconcileKeeps` | yt_media_tools/cache_registry_store.py:200-373 | an accepted reconcile keeps identities, tables, storage names, links, types, orders and policies, and uniqueness; every new row is registered after all that were there |
| `ProviderRegistry.ReconcileDeclares` | yt_media_tools/cache_registry_store.py:200-399 | afterwards the declared rows match exactly the definitions, with one type per shared field |
| `ProviderRegistry.RegistryIsStable` | yt_media_tools/cache_registry_store.py:200-399 | over any sequence of accepted and failing operations nothing stable changes, orders stay unique and append-only, and revisions never fall |
| `ProviderRegistry.PolicyHasOneWriter` | yt_media_tools/cache_registry_store.py:545-569 | over any sequence, only its setter changes a provider's policy |
| `ProviderRegistry.OverridesHaveOneWriter` | yt_media_tools/cache_registry_store.py:571-623 | over any sequence, only their setter changes a field's overrides |
| `ProviderRegistry.DeclaredMatchesLast` | yt_media_tools/cache_registry_store.py:200-219 | what is declared is what the last accepted reconcile declared, whatever failed or was set since |
| `RegistryTypes.TypeRoundTrip` | yt_media_tools/cache_registry_store.py:53-102 | a stored type of any depth reads back as itself |
| `RegistryTypes.PayloadIsInjective` | yt_media_tools/cache_registry_store.py:105-106 | comparing stored types compares the types |
| `FieldResolution.RowOrderIsIrrelevant` | yt_media_tools/cache_registry_store.py:406-487 | any sorted listing of the eligible rows is the one candidate list, so SQL row order and argument order cannot matter |
| `FieldResolution.StandsOnce` | yt_media_tools/cache_registry_store.py:406-487 | the candidates are the enabled, declared, available providers with the field and its group declared, each once |
| `FieldResolution.OrderedByPriority` | yt_media_tools/cache_registry_store.py:481-486 | one candidate stands before another if and only if it has the higher priority, its override counting first, or the same and was registered earlier |
| `FieldResolution.ResolveField` | yt_media_tools/cache_entity_store.py:1064-1110 | the one-pass loop returns the winner: first value, else first known null, else first stale; nothing when nobody answers; raises exactly when an observation before the first value raises |
| `FieldResolution.ValueWinsByPriority` | yt_media_tools/cache_entity_store.py:1064-1110 | a value wins if and only if no candidate of higher priority, or of the same and registered earlier, shows one |
| `FieldResolution.ShowsColumnExactly` | yt_media_tools/cache_entity_store.py:515-620 | a provider shows its column as a value or known NULL while its success is fresh, as stale from then on, and in no other case |
| `LightweightTruth.ClaimIsSound` | yt_media_tools/capabilities.py:104-189 | whatever the full record turns out to be, three-valued evaluation never contradicts a claim, for every predicate tree |
| `LightweightTruth.RejectionIsSafe` | yt_media_tools/capabilities.py:192-194 | a rejected candidate never satisfies the predicate |
| `LightweightTruth.ClaimIsEvaluation` | yt_media_tools/capabilities.py:104-189 | nothing is lost on what an entry shows: for predicates on shown fields the claim is what evaluation of the entry says |
| `LightweightTruth.DateClaimIsBest` | yt_media_tools/capabilities.py:63-101 | on a date interval a claim is made exactly when all days agree |
| `LightweightTruth.DateRangeMisses` | yt_media_tools/capabilities.py:104-189 | BETWEEN makes only true claims and misses one exactly for reversed bounds inside the interval |
| `LightweightTruth.IndexComparisonSoundExactly` | yt_media_tools/capabilities.py:104-189 | a comparison with source_index is read soundly exactly when the literal already compares as its number |
| `LightweightTruth.IndexListSoundExactly` | yt_media_tools/capabilities.py:104-189 | an IN list exactly when its literals compare as their numbers, as a set |
| `LightweightTruth.IndexRangeSoundExactly` | yt_media_tools/capabilities.py:104-189 | BETWEEN exactly when both bounds compare as their numbers, or neither range has a member |
| `StagedPredicates.RejectsAtEnumeration` | yt_media_tools/staged_predicates.py:111-123 | rejects exactly when a top-level AND term over exact flat fields, all of them present in the entry, is not true of it |
| `StagedPredicates.RejectsExactly` | yt_media_tools/staged_predicates.py:39-123 | a conjunction is rejected by either side, anything else if and only if it may be read early, all its fields are shown and it is not true of the entry |
| `StagedPredicates.EarlyRejectionIsSafe` | yt_media_tools/staged_predicates.py:54-123 | such an entry belongs to no row that satisfies WHERE, resolved and in full |
| `Acquisition.AcceptSpecialised` | yt_media_tools/discover_acquisition.py:44-71 | the first record of each id asked for |
| `Acquisition.AcceptedExactly` | yt_media_tools/discover_acquisition.py:44-72 | a record is accepted if and only if its id was asked for and it is the first with that id |
| `Acquisition.CachedOrRefresh` | yt_media_tools/discover_acquisition.py:202-365 | every row is yt-dlp's record, a cached one, or a cached one updated member by member with the answer of a covering provider; hits, stale rows and misses are counted per occurrence and add up |
| `Acquisition.CountsAreConserved` | yt_media_tools/discover_acquisition.py:202-365 | with a cache every occurrence is one of hit, stale and miss; without one none is counted |
| `Acquisition.RefreshIsExact` | yt_media_tools/discover_acquisition.py:202-365 | refreshed are exactly the distinct ids without a fresh row, each settled by one specialised record or left once for yt-dlp, never both |
| `Acquisition.SettledByCoveringProvider` | yt_media_tools/discover_acquisition.py:259-308 | a specialised record comes from a provider that covers what the id lacked and was asked for it: its members at its values, every other cached member as it was |
| `Acquisition.RowSource` | yt_media_tools/discover_acquisition.py:202-365 | the row of an id is yt-dlp's last record, else the specialised one, else the cached one |
| `Acquisition.HitIsServedExactly` | yt_media_tools/discover_acquisition.py:202-365 | a fresh hit is never refetched, and is served from the cache exactly when yt-dlp returns no other record under its id |
| `Acquisition.StrayRecordReplacesHit` | yt_media_tools/discover_acquisition.py:202-365 | a request where it is not |
| `Acquisition.RowsFollowInput` | yt_media_tools/discover_acquisition.py:202-365 | one row per occurrence of a resolved id, in input order |
| `Acquisition.RowIsAlone` | yt_media_tools/discover_acquisition.py:202-365 | with backends that answer per id, each row is what its id would get alone: the fresh cached record, else the cached one updated with the first provider that answers, else yt-dlp's, else the stale one |
| `LimitAcquisition.LimitAware` | yt_media_tools/discover_acquisition.py:389-454 | stops after the first batch that completes OFFSET + LIMIT counted matches, otherwise after the last id; statistics add up |
| `LimitAcquisition.BatchingRefinesExhaustive` | yt_media_tools/discover_acquisition.py:389-454 | at every such stop the numbered rows after OFFSET and LIMIT are those of acquiring every candidate, where the counts of the source's rows are safe |
| `LimitAcquisition.BatchingIsExactExactly` | yt_media_tools/discover_acquisition.py:440-452 | on the rows of a source, with unavailable videos anywhere between them, that holds at every stop if and only if its counts are safe: no first rows count more than their results before all results are there |
| `LimitAcquisition.RowsCountExactly` | yt_media_tools/discover_acquisition.py:440-452 | counts are safe on all rows if and only if each counted row is a result after the overlay at the index it gets, or nothing after that index is one |
| `LimitAcquisition.CacheFirstIsAlone` | yt_media_tools/discover_acquisition.py:202-365 | cache-first refresh meets what batching needs of a fetch |
| `LimitAcquisition.IndexPredicateLosesRow` | yt_media_tools/discover_application.py:1653-1658 | 26 candidates and a predicate on source_index for which LIMIT 1 loses its row |
| `FastPath.ScreenEntries` | yt_media_tools/discover_application.py:1162-1182 | observed ids, candidates and rejections by both tests, first occurrences in order |
| `FastPath.FinalRows` | yt_media_tools/discover_application.py:1265-1281 | each acquired row takes the enumerated values of its id's last entry, then its number, and is kept where WHERE is true of it |
| `FastPath.ScreeningKeepsMatches` | yt_media_tools/discover_application.py:1162-1182 | the ids whose overlaid row is a result are, in order, the same among the candidates as among everything observed, and counts add up |
| `FastPath.RenumberingIsExactly` | yt_media_tools/discover_application.py:1653-1658 | discarding rows that are no results changes no other result of any source, but for the numbers, if and only if no row's number decides whether it is one |
| `FastPath.ScreenedResults` | yt_media_tools/discover_application.py:1162-1281 | without LIMIT, the results of the candidates are those of every observed id |
| `FastPath.FastPathIsExact` | yt_media_tools/discover_application.py:1162-1281 | screening by both tests, batching, caching and the overlay together give the rows of acquiring every observed id: numbers included where nothing was discarded |
| `FastPath.UpToDateIsSafe` | yt_media_tools/discover_application.py:1265-1281 | what a caller can check: no source_index in WHERE, and where it reads ids or titles the acquired ones are those shown, makes the counts safe |
| `FastPathLosses.OldTitleLosesRow` | yt_media_tools/discover_application.py:1228-1281 | 26 candidates of which the first is cached under an old title: it ends the batch, the overlay drops it, and LIMIT 1 answers nothing |
| `FastPathLosses.RepeatsAreSafeExactly` | yt_media_tools/discover_application.py:1166-1272 | on an enumeration no discarded id has a result, for any query and rows, if and only if its last entry shows the id and title that its first one does |
| `CteDependencies.PlanCteDependencies` | yt_media_tools/cte_dependencies.py:190-214 | the backward walk computes the plan of every CTE |
| `CteDependencies.PlanNamesExactly` | yt_media_tools/cte_dependencies.py:51-181 | the plan names a field if and only if the condition, HAVING, a grouping, an ordering or a kept term does; terms are kept where nothing is pruned, their output is required, or they draw |
| `CteDependencies.RequiredExactly` | yt_media_tools/cte_dependencies.py:184-214 | required of a CTE is exactly what its consumers' plans and the main query name |
| `CteDependencies.RequirementsPropagate` | yt_media_tools/cte_dependencies.py:190-214 | whatever a consumer's plan reads of a CTE is required of it |
| `QueryEvaluation.OrderIsStable` | yt_media_tools/query_evaluator.py:822-840 | ORDER BY one term is a stable sort in its direction, rows without a value last, every row once |
| `CteDependencies.BodyAgrees` | yt_media_tools/query_evaluator.py:314-359 | rows that agree on what a body reads, own columns and draws included, give rows that agree on the required outputs |
| `CteDependencies.CteAgrees` | yt_media_tools/query_evaluator.py:760-889 | on records that agree on the planned physical fields every CTE materialises the same rows, up to outputs nobody requires |
| `CteDependencies.PruningPreservesAnswer` | yt_media_tools/cte_dependencies.py:113-214 | where the plan covers every resolved body, pruning preserves what is written row for row: DISTINCT, grouping, HAVING, ORDER BY, OFFSET, LIMIT, volatile outputs and own columns included |
| `CteDependencies.PlainIsCovered` | yt_media_tools/cte_dependencies.py:38-104 | a body with plain names (checkable from its text and the columns of its input) is covered, whatever is required of it |
| `CteDependencies.PlainPlansAreSound` | yt_media_tools/cte_dependencies.py:113-214 | so plans of plain chains preserve the answer |
| `CteExactness.ReadsExactly` | yt_media_tools/query_evaluator.py:760-889 | a resolved body gives its required outputs from some fields alone, for every engine and all rows, if and only if it reads no others |
| `CteExactness.HavingIsSeen` | yt_media_tools/query_resolver.py:363-375 | whatever else a body does, a field that only its resolved HAVING reads is seen in its rows |
| `CteExactness.OrderIsSeen` | yt_media_tools/cte_dependencies.py:59-68 | the same for ORDER BY, with or without groups, by the row that comes first |
| `CteExactness.TermIsSeen` | yt_media_tools/query_evaluator.py:328-336 | the same for a required term: its own column, its expression, or a draw it reads |
| `CteExactness.DistinctIsSeen` | yt_media_tools/query_evaluator.py:840-857 | the same for the key of a term nobody requires, under DISTINCT |
| `CteExactness.PlanIsExact` | yt_media_tools/cte_dependencies.py:113-187 | the plan of a producer preserves the required outputs, for every engine and all rows, if and only if it covers the resolved body |
| `CteLosses.ShadowedColumnIsLost` | yt_media_tools/query_evaluator.py:328-336 | a chain of two CTEs in which an output shadows a pruned column: another answer on the planned fields, for every engine |
| `CteLosses.HavingAliasIsLost` | yt_media_tools/query_resolver.py:363-375 | an alias in HAVING loses its source field |
| `CteLosses.CompoundOrderIsLost` | yt_media_tools/cte_dependencies.py:50-68 | an alias inside an ORDER BY expression loses its source field and changes the order |
| `CteLosses.SeededDrawIsLost` | yt_media_tools/query_evaluator.py:69-96 | a seeded draw in SELECT depends on cells no plan names |
| `CteChains.CarriedAnswer` | yt_media_tools/query_evaluator.py:1416-1431 | over a whole chain: where every body gives the columns held of it from what its source holds, the answer depends on the carried physical fields only |
| `CteChains.UncoveredYetPreserved` | yt_media_tools/cte_dependencies.py:113-214 | a chain with an uncovered body and the same answer for every engine and all records: covering every body is not needed for a chain |
| `CteChains.OneCteIsExact` | yt_media_tools/cte_dependencies.py:113-214 | for one CTE whose columns are passed on, the answer is preserved for every engine and all records if and only if the plan covers the CTE |
| `GroupedOutput.WrittenWhenRereadable` | yt_media_tools/query_evaluator.py:324-340 | terms with an aggregate or RANDOM, or over columns exported bare, are written as computed, for every engine and all rows |
| `GroupedOutput.WrittenExactly` | yt_media_tools/query_evaluator.py:1432-1435 | a grouped main query is written as computed, for every engine and all rows, if and only if all its terms are of that kind |
| `GroupedOutput.SharedTestIsKept` | yt_media_tools/query_evaluator.py:760-819 | a body outside that class, where SELECT repeats a test: written as computed though its columns are not exported bare |
| `GroupedOutput.GroupedAliasIsWrittenNull` | yt_media_tools/query_evaluator.py:1432-1435 | a grouping column whose name is no output is written as NULL |
| `GroupedOutput.GroupedAliasIsLost` | yt_media_tools/output.py:104-133 | one record on which the group has its value and NULL is written |
| `SourceFrontier.EnumerateUntilOverlap` | yt_media_tools/ytdlp.py:496-587 | stops at the first confirmed overlap, or reads everything and there is none |
| `SourceFrontier.Observe` | yt_media_tools/discover_application.py:1357-1446 | the ordering one scan observes, full or incremental |
| `SourceFrontier.CurrentIs` | yt_media_tools/discover_application.py:1400-1416 | each usable id read is kept once, in order of first appearance |
| `SourceFrontier.ConfirmedIsExact` | yt_media_tools/discover_application.py:1417-1439 | a confirmed scan reproduces the source exactly when the unread part is the stored ordering without the ids read |
| `SourceFrontier.HeadGrowthIsExact` | yt_media_tools/discover_application.py:1417-1439 | a source that only gained entries at its head is reproduced without duplicates |
| `SourceFrontier.DeletedTailStays` | yt_media_tools/discover_application.py:1417-1439 | a source that lost an entry below the overlap is not |
| `SourceFrontier.StoredIsTrusted` | yt_media_tools/discover_application.py:1572-1585 | over all runs the stored ordering is the source as it stood at the last trusted run |
| `ValueReferences.PathExactly` | yt-download.py:2567-2584 | a text is a reference to a path if and only if it is $values followed by the dotted names |
| `ValueReferences.ResolvesExactly` | yt-download.py:2567-2595 | resolution terminates on every values table and succeeds exactly when no path of references ends badly or returns to itself |
| `ValueReferences.CyclicExactly` | yt-download.py:2567-2595 | with well-formed, known references the cycle error is raised exactly when the reachable references form a cycle |
| `ValueReferences.ReferenceIsTransparent` | yt-download.py:2567-2595 | a reference resolves to what its target resolves to on its own |
| `ValueReferences.ChainIsIrrelevant` | yt-download.py:2567-2595 | how a value was reached does not show in its result |
| `Profiles.Loader.Resolve` | yt-download.py:2679-2708 | the memoised search keeps finished profiles, adds the name's, and fails only for a chain without a root or settings that do not validate |
| `Profiles.Loader.LoadAll` | yt-download.py:2709-2713 | the loop succeeds exactly when every name has a root and validates, in any visiting order |
| `Profiles.LoadProfiles` | yt-download.py:2614-2713 | defaults invalid, unknown parent, loaded, or failed, each exactly; the profiles are the defined ones |
| `Profiles.OneOutcome` | yt-download.py:2679-2713 | a name has at most one profile, and has one only if it is rooted and valid |
| `Profiles.CycleHasNoRoot` | yt-download.py:2679-2708 | a parent chain that returns to a name never reaches a root |
| `Profiles.ProfileMeans` | yt-download.py:2679-2708 | a profile is the right-biased merge of defaults, ancestors from root to leaf and own settings, normalised; its sources are the nearest definers and its ancestry the parent chain |
| `Continuation.CollectionState.RecordCompletion` | yt-download.py:3287-3297 | only a member of the collection is recorded |
| `Continuation.CollectionState.Invoke` | yt-download.py:4434-4551 | what one undisturbed invocation passes and leaves behind |
| `Continuation.InvocationMeans` | yt-download.py:4434-4551 | the targets passed are those not recorded, all after a reset; then what was recorded or moved is recorded, or nothing if that is every target, and other collections stay |
| `Continuation.UndisturbedRuns` | yt-download.py:4434-4551 | an undisturbed invocation can take its steps to the end, and they do to the state what the invocation does as a whole |
| `Continuation.StateFailurePassesAll` | yt-download.py:4434-4551 | where the state cannot be reset or read every target is processed and nothing recorded |
| `Continuation.CallbackExactly` | yt-download.py:3287-3297 | a completion is recorded exactly for a target of the collection whose yt-dlp is tracked, even after the invocation is gone |
| `Continuation.StepKeepsReads` | yt_media_tools/collection_state.py:207-238 | under the collection lock nobody else's step makes what an invocation read go stale |
| `Continuation.EveryRunIsSound` | yt-download.py:4434-4551 | across any interleaving of invocations, failures, kills and late callbacks the state is what was recorded since the last clear |
| `Continuation.SkippedWasRecorded` | yt-download.py:1593-1604 | a target left out was recorded for that collection since its last clear; those passed keep their order |
| `Continuation.ClearedWhenComplete` | yt-download.py:4530-4542 | without a reset, state is cleared only when every target was recorded |
| `DownloadQueue.TargetIs` | yt-download.py:3347-3380 | a line names a target unless it is blank or a comment of its mode: its text, or its longest beginning without space |
| `DownloadQueue.QueueTargets` | yt-download.py:3347-3380 | the distinct targets of the lines, in order |
| `DownloadQueue.Queue.Remove` | yt-download.py:3094-3200 | exactly the lines of the id are dropped, and it reports whether any was |
| `DownloadQueue.Queue.RemoveAll` | yt-download.py:3225-3246 | the survivors after any sequence of removals |
| `DownloadQueue.RunQueue` | yt-download.py:3225-3445 | one whole use of the queue: the lines left and the report |
| `DownloadQueue.LeftUnlessRemoved` | yt-download.py:3225-3380 | a requested target is left exactly when nobody removed it |
| `DownloadQueue.ReportAccounts` | yt-download.py:3411-3445 | every requested target is reported; completed overlaps neither other list and means a callback, or an archive entry that appeared between the readings |
| `DownloadQueue.SplitsExactly` | yt-download.py:3411-3445 | the lists split the requested targets exactly when every target taken for archived was removed |
| `DownloadQueue.RacesOnlyRemove` | yt-download.py:3094-3200 | whatever processes read, filter and replace the file without a lock, it is the original lines without exactly the ids of the removals that made its last version |
| `DownloadQueue.LostExactly` | yt-download.py:3094-3200 | the lines of an id are in the file exactly when its removal is none of those |
| `DownloadQueue.UndoneByStaleReader` | yt-download.py:3094-3200 | a removal that was in the file and no longer is was undone by a process that had read the file before it and replaced it after |
| `DownloadQueue.RemovalIsLost` | yt-download.py:3094-3200 | a run of two processes that loses one removal |
| `DownloadQueue.RacedReportAccounts` | yt-download.py:3411-3445 | the report over the raced file still lists every requested target, with a callback or an archive entry behind each completed one; unresolved are those whose removal is not in the last version |
| `DownloadQueue.GrowingArchiveSplits` | yt-download.py:3411-3445 | so an archive that only grows splits them exactly |
| `DownloadQueue.OtherLinesSurvive` | yt-download.py:3094-3200 | a line survives exactly when it names no removed id |
| `CalendarShift.LandsInMonth` | yt_media_tools/dates.py:111-117 | the shift lands in exactly the requested month on the same or the last day, loses at most three days, and fails exactly outside the calendar |
| `CalendarShift.IsMonotone` | yt_media_tools/dates.py:111-117 | later dates do not shift to earlier ones |
| `CalendarShift.ComposesExactly` | yt_media_tools/dates.py:111-117 | two steps are one exactly when the month in between has the day, or is no shorter than the month arrived at |
| `CalendarShift.ComposesTo28` | yt_media_tools/dates.py:111-117 | so up to day 28 every decomposition agrees |
| `CalendarShift.ThereAndBack` | yt_media_tools/dates.py:111-117 | there and back keeps year and month, loses at most three days, and none exactly when the month in between has the day |
| `CalendarShift.YearsAreMonths` | yt_media_tools/dates.py:111-117 | shifting years is shifting twelve times as many months |

## Left out

Contracts stated more narrowly than the code's promise:

- CacheStartup.HistoryIsConserved: only the managed cache family; an explicit cache path skips the lock and discovery (yt_media_tools/discover_application.py:257-262) and can write the same file.
- CacheRetention.PlanRetention: provider arguments count once each; the code lists the contributions of a repeated provider once per repetition.
- CacheRetention.CollectionIsExact: like the other lemmas with `Registry.Unique`, assumes distinct provider ids and metadata tables; the schema enforces the first, and for the second relies on the definitions, as the table column is not unique.
- CteDependencies.PruningPreservesAnswer: the records agree on the planned fields in keys and values, as records cut down to those fields do.
- CteDependencies.PlanCteDependencies: chains with explicit SELECT lists and one FROM each; joins, set operations, EXISTS, POSITION, aggregate FILTER and CASE are not modelled, and the text fallback of mixed-type ordering is part of the abstract comparison.
- CteExactness.PlanIsExact: for bodies with WHERE and HAVING tests that are not constants, OFFSET 0, and a LIMIT of at least one row (two with DISTINCT); with ORDER BY, some required output is a bare column the order does not read. Outside this class an uncovered field can stay invisible (LIMIT 0, WHERE FALSE, rows that look alike). Operators and functions are arbitrary.
- CteChains.OneCteIsExact: longer chains have no such condition on their bodies alone, because what a body loses may be a constant upstream or be dropped downstream.
- GroupedOutput.WrittenExactly: for bodies with OFFSET 0, a LIMIT of at least one row, and WHERE and HAVING tests whose outermost operators do not occur in SELECT, as comparisons do not; where they do, the tests can fix the values.
- CteLosses.SeededDrawIsLost: a seeded draw may depend on every cell of its row, where the code takes the identity cells if any is present and all public cells otherwise.
- LightweightTruth.ClaimIsSound: if an entry shows a source_index, which none does today, the literals compared with it must already have its type; that condition is exact for each test, not for whole trees, in which another branch can hide a test that is misread.
- StagedPredicates.EarlyRejectionIsSafe: for entries that show no source_index.
- FastPath.FastPathIsExact: where candidates were discarded, for rows whose number does not decide whether they are results, and apart from the numbers. Upload dates of acquired rows are assumed to lie in the interval that their entry shows.
- FastPathLosses.RepeatsAreSafeExactly: for entries whose ids and titles are texts or null.
- Acquisition.CachedOrRefresh: a yt-dlp command that fails altogether, skip categories, the written counter and write-back to the cache are not modelled.
- SourceFrontier.StoredIsTrusted: the source gains entries at its head only and does not change during a scan.
- Profiles.ProfileMeans: single-key normalisers are abstract and assumed idempotent; rules across several keys decide only whether settings validate.
- Continuation.CollectionState.Invoke: dry runs and the observation of collection order by fingerprint are not modelled.
- DownloadQueue.RunQueue: one process at a time; removals that race are in the lemmas on races.
- DownloadQueue.Queue.Remove: lines are decoded texts; byte order marks, undecodable bytes and differences between line terminators are not modelled.

Abstracted:

- Text columns are integers in SQLite's sort order; timestamps are instants in field resolution, and in migration and retention what `fromisoformat` makes of a text.
- JSON decoding, the fields that a WHERE term looks at, column affinity, literal and date parsing, text matching, normalisers and scalar functions are function parameters about which only what is stated is assumed.
- A source's rows are grouped under its id, which stands for the UNIQUE and CASCADE declarations; facets other than the empty one are not used by migrated sources.
- The rows certification in normal mode selects are a parameter.
- SQLite's engine, WAL, VACUUM, fsync, the disk space preflight, deferred indexes, migration events and logs.
- Random numbers: a draw per row, the same on both sides of a comparison.

Not modelled, because it would add only easy members or is presentation:

- Multi-step migration planning with one known step, cache status, freshness configuration files, the startup prompt.
- Argument parsing, explanations, progress rendering, command assembly, redaction, schemas, manifests and hashing.
- The backends themselves: yt-dlp, YouTube.js and ytmusicapi are functions of what they are asked.
