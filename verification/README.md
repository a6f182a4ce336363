# Verified models of the meme pipeline

Dafny models of the stateful and data-transforming parts of the repository, with proofs about
all inputs, all interleavings and all runs.

| file | models |
|---|---|
| `RateLimiter.dfy`, `RateLimitService.dfy` | the Redis fixed-window limiter: INCR, TTL and EXPIRE of many requests interleaved with the clock and crashes; and the request guard written against a shared key |
| `RunnerClaim.dfy` | container runners competing for one Compose project name, and `main` of the runner script under their interference |
| `RecoveryMigration.dfy`, `RecoveryGuarantees.dfy` | the thirteen ordered updates of revision 0042 and its downgrade |
| `TrendEngine.dfy`, `DailyTrends.dfy`, `SeedTrends.dfy` | high-water deltas of nullable counters, their comparison with adjacent deltas, the daily SQL pipeline, and the seed script's independent computation of it |
| `RecommendationState.dfy`, `RecommendationFeatures.dfy` | the two-phase recommendation backfill and the features view of revision 0043 |
| `RuntimeHealth.dfy` | the heartbeat reporter as an object and the checker that reads its file |
| `RetryLoops.dfy` | the HTTP retry loop and the two consumer wait loops, over a clock that only moves forward |
| `Visibility.dfy` | provenance, the Favorites backfill and visibility modes of revisions 0031 and 0033 |
| `DeadLetters.dfy` | the dead-letter importer with crashes, re-runs and concurrent importers |
| `InlineIds.dfy`, `UuidV7.dfy` | the inline bot's ids and callback data, and UUID version 7 packing |
| `Common.dfy` | options, counting, separators, `ORDER BY (timestamp, id)`, fixed-width hexadecimal |

Protocols are transition systems: a state, an `Event`, `Enabled`, `Apply` and `Run`. Code that
changes state is a class whose ghost log is a run of the transition system, so that what holds
of every run holds of every such object. Between two steps of a method any schedule of others'
steps may run. Migrations are classes over tables with one method a statement (or a group of
adjacent ones), proved against closed forms in the original rows.

Where the code does not do what one would expect of it, a lemma gives the exact condition and an
input:

- High-water deltas stay below adjacent deltas exactly where the preceding counter is known or the value does not rise above the running high (`TrendEngine.HighAtMostLagExactly`, `NullsBreakComparison`).
- The smoothed rate lies between raw rate and cohort mean exactly when the source has views or no actions (`RecommendationFeatures.SmoothedBetweenExactly`, `ActionsWithoutViewsEscape`).
- The recommendation phases do not commute; they do exactly where no event adds to a saved row (`RecommendationState.PhasesCommuteExactly`, `SwappingLosesImpression`).
- The reporter's table is entered-and-not-exited along a run exactly when no stop interrupts an operation, because `stop` clears it (`RuntimeHealth.TrackedExactly`, `StopDropsOperation`).
- The flag equals the meaning of the visibility mode exactly for memes whose flag followed their latest settling decision or, without one, that were not both public and blocked (`VisibilityPolicy.RestoredMeansFlagExactly`, `BlockedPublicMemeDisagrees`).
- Uploader and source kind disagree exactly where an ownerless request meets a meme with an author (`VisibilityPolicy.UploaderMatchesKindExactly`, `OwnerlessRequestDisagrees`).
- The retry loop's backoff can overflow exactly when the request may be retried and has more than 51.2 seconds, even if every response carries Retry-After; the default is 180 (`HttpRetry.OverflowExactly`, `DefaultBudgetOverflows`).
- A consumer inspection can outlast the deadline exactly when it starts in the last 0.1 seconds (`ConsumerWait.InspectionOverruns`).

## Model

| member | source | states |
|---|---|---|
| RateLimiter.StepKeepsInv | memexpert/api/security.py:469-513 | Every INCR, TTL, EXPIRE, clock tick and crash keeps: lives of the key never overlap, each lasts at least a window, a count is the position of its INCR in its life, answers lie between one second and the window |
| RateLimiter.RunKeepsInv | memexpert/api/security.py:469-513 | The same over whole interleavings |
| RateLimiter.LifeBudget | memexpert/api/security.py:481-494 | Exactly the first N increments of a life have a count of at most N |
| RateLimiter.LivesFarApart | memexpert/api/security.py:494-499 | Increments two or more lives apart are more than a window apart |
| RateLimiter.AdmissionBound | memexpert/api/security.py:469-513 | At most twice the maximum is admitted with INCR inside any interval of one window |
| RateLimiter.AdmissionBoundOverRuns | memexpert/api/security.py:516-574 | The bound for every interleaving from a fresh limiter |
| RateLimiter.AdmissionBoundIsTight | memexpert/api/security.py:481-499 | For every policy some run reaches the bound, so no smaller one holds |
| RateLimiter.RefusalIsEarned | memexpert/api/security.py:565-572 | A refused request's life already held the full budget of other increments |
| RateLimiter.AnswerIsReset | memexpert/api/security.py:485-513 | A request is answered with the seconds its key still has, or with the whole window by its own EXPIRE |
| RateLimiter.SetExpiryArms | memexpert/api/security.py:494-499 | After any completed EXPIRE no life is without an expiry |
| RateLimiter.PermanentKeyIsRearmed | memexpert/api/security.py:483-499 | A key a crash left without expiry is re-armed by the next request that reads its TTL, whatever runs in between |
| RateLimiter.LateJoinerNeverExtends | memexpert/api/security.py:483-499 | A request that joined an armed life never moves its expiry |
| RateLimiter.StepKeepsCreator | memexpert/api/security.py:481-494 | Without crashes a key without expiry has its creator in flight |
| RateLimiter.CreatorIssuesExpire | memexpert/api/security.py:483-499 | That creator goes on to EXPIRE whatever TTL it reads, and EXPIRE arms the key |
| RateLimiter.RunKeepsTimelyInv | memexpert/api/security.py:481-499 | With requests finishing within a limit, EXPIRE on a live key comes early in its life, over whole runs |
| RateLimiter.NoSlidingWindow | memexpert/api/security.py:481-499 | With requests finishing within a limit, every life is over by window + 2 * limit after its creation |
| RateLimitKeys.KeyInjective | memexpert/api/security.py:463-466 | Two bucket keys are equal exactly when tier and subject are |
| RateLimitKeys.TierInjective | memexpert/api/security.py:85-93 | Tier names are distinct and free of the separator |
| RateLimitKeys.KeySpelled | memexpert/api/security.py:463-466 | Every key as it is written |
| RateLimitKeys.SharedBucket | memexpert/api/security.py:373-444 | Who shares a bucket: by address for auth and upload tiers, else by signed user when there is one |
| RateLimitService.Bucket.Incr | memexpert/api/security.py:481-484 | INCR on the stored key, purged if expired, is the transition's INCR and returns its count |
| RateLimitService.Bucket.ReadTtl | memexpert/api/security.py:483-491 | TTL of the stored key: -2 absent, -1 permanent, else the seconds left |
| RateLimitService.Bucket.SetExpiry | memexpert/api/security.py:494-499 | EXPIRE applies exactly when the key is alive |
| RateLimitService.ConsumeSecurityRateLimit | memexpert/api/security.py:469-513 | One request under arbitrary interference is a run of the transition system and returns its count and the seconds the key has left; a request whose INCR never arrives leaves no trace |
| RateLimitService.EnsureSecurityRuntimeAvailable | memexpert/api/security.py:516-574 | Pass exactly if admitted, refused exactly if answered over budget, with reset and Retry-After the seconds the key has left; unavailable exactly if unanswered and failing closed, also without a subject; the admission bound holds afterwards |
| RunnerClaim.StepKeepsInv | scripts/run_container_e2e.py:183-283 | Every command of every runner keeps: an active runner holds the claim, runner-made resources exist only under their maker's claim after its preflight |
| RunnerClaim.RunKeepsInv | scripts/run_container_e2e.py:183-283 | The same over every interleaving and failure |
| RunnerClaim.ThreeListingsSeeAll | scripts/run_container_e2e.py:558-585 | The three listings by kind miss no resource |
| RunnerClaim.MutualExclusion | scripts/run_container_e2e.py:484-513 | In every state of every run at most one runner is between claim and release, and it made the network |
| RunnerClaim.OnlyHolderTouchesStack | scripts/run_container_e2e.py:183-283 | At any point of any run resources change only by the claim holder after its preflight, or by a command it left running when it died |
| RunnerClaim.ReleaseOnlyWhenClean | scripts/run_container_e2e.py:257-283 | At any point of any run the claim vanishes only by its holder's release, after teardown and image removal both succeeded, with nothing left |
| RunnerClaim.FreeNameIsClean | scripts/run_container_e2e.py:257-283 | Whenever the name is unclaimed exactly what was there before the runners is under it |
| RunnerClaim.ForeignStackUntouched | scripts/run_container_e2e.py:558-585 | What was there before the runners stays through any run |
| RunnerClaim.ForeignStackRefused | scripts/run_container_e2e.py:558-585 | With such resources no runner ever passes its preflight |
| RunnerClaim.RetainedClaimFences | scripts/run_container_e2e.py:540-555 | Once a claim is kept by a finished or dead runner no other runner is ever active, and the stack changes only by what the dead one left running |
| RunnerMain.ClaimProject | scripts/run_container_e2e.py:484-513 | Succeeds exactly when this runner created the claim and learned its id |
| RunnerMain.ListResources | scripts/run_container_e2e.py:558-585 | One listing by kind under interference, and what the runner makes of it |
| RunnerMain.AssertProjectAvailable | scripts/run_container_e2e.py:558-585 | Passes exactly to Available; a failed listing or a found resource ends the run with a non-zero code |
| RunnerMain.CleanUp | scripts/run_container_e2e.py:257-283 | Release exactly after successful teardown, image removal and network removal |
| RunnerMain.RunContainerE2E | scripts/run_container_e2e.py:145-328 | The released flag, each retained reason exactly when it applies, and the exit code of the first failing command, under interference of other runners and with a failing metadata write |
| RecoveryMigration.IncompatibleStable | alembic/versions/0042_replay_repair_and_media_generations.py:131-230 | The first five statements do not change which previews are incompatible |
| RecoveryMigration.AbandonKeepsIncompatible | alembic/versions/0042_replay_repair_and_media_generations.py:234-274 | The seventh statement's test gives the same answer after the sixth rewrote item statuses |
| RecoveryMigration.SettleItems | alembic/versions/0042_replay_repair_and_media_generations.py:131-368 | The statements in sequence leave every item in its closed form |
| RecoveryMigration.SettleJobs | alembic/versions/0042_replay_repair_and_media_generations.py:131-380 | And every job, up to its counters |
| RecoveryMigration.RecoveryDatabase.Fence | alembic/versions/0042_replay_repair_and_media_generations.py:131-172 | Neutral replay columns on all rows, stored timestamps kept |
| RecoveryMigration.RecoveryDatabase.Hydrate | alembic/versions/0042_replay_repair_and_media_generations.py:177-214 | Stage work from the journal, sync work from its snapshot |
| RecoveryMigration.RecoveryDatabase.ExpireIncompatible | alembic/versions/0042_replay_repair_and_media_generations.py:234-274 | Open items of incompatible previews abandoned, then exactly those previews expired |
| RecoveryMigration.RecoveryDatabase.RebuildPreviews | alembic/versions/0042_replay_repair_and_media_generations.py:279-327 | Selectors of surviving previews rebuilt, their items cleaned |
| RecoveryMigration.RecoveryDatabase.TerminalizeLive | alembic/versions/0042_replay_repair_and_media_generations.py:331-380 | Open items of live jobs abandoned, those jobs cancelled, other selections normalized |
| RecoveryMigration.RecoveryDatabase.Backfill | alembic/versions/0042_replay_repair_and_media_generations.py:121-427 | The thirteen statements reach the closed form of the original tables |
| RecoveryGuarantees.NothingLeftLive | alembic/versions/0042_replay_repair_and_media_generations.py:331-367 | No job is queued or running, every item of a formerly live job is terminal, no reservation is active |
| RecoveryGuarantees.SurvivingPreviewIsClean | alembic/versions/0042_replay_repair_and_media_generations.py:234-327 | A surviving preview has only undispatched queued items |
| RecoveryGuarantees.JobFate | alembic/versions/0042_replay_repair_and_media_generations.py:259-274 | Expired exactly the previews that held a non-queued item, cancelled exactly the live jobs |
| RecoveryGuarantees.CountersReconcile | alembic/versions/0042_replay_repair_and_media_generations.py:383-427 | Total = queued + waiting + dispatched + the five terminal counts |
| RecoveryGuarantees.CountersByName | alembic/versions/0042_replay_repair_and_media_generations.py:383-427 | Each counter is the number of the job's original items of its very status; only the cancelled one also counts what the upgrade closed |
| RecoveryGuarantees.FinalCounters | alembic/versions/0042_replay_repair_and_media_generations.py:383-427 | The final total is the number of original items, all of them roots |
| RecoveryGuarantees.FinalProgress | alembic/versions/0042_replay_repair_and_media_generations.py:383-427 | Surviving previews are all queued, closed jobs all completed |
| RecoveryGuarantees.ClosedJobIsIncompatibleOrLive | alembic/versions/0042_replay_repair_and_media_generations.py:259-367 | A job's status changes exactly if it was live or an incompatible preview |
| RecoveryGuarantees.SelectorAligned | alembic/versions/0042_replay_repair_and_media_generations.py:279-310 | A rebuilt selector lists every item of its preview once, by creation time and then id |
| RecoveryGuarantees.RealignedExactly | alembic/versions/0042_replay_repair_and_media_generations.py:177-230 | An item's action changes exactly for a preview's retry of a moving-media transcode, told from the original rows, and becomes a regeneration |
| RecoveryGuarantees.ClosedExactly | alembic/versions/0042_replay_repair_and_media_generations.py:234-347 | An item is abandoned exactly if it was open and its job live or an incompatible preview; every other status stays |
| RecoveryGuarantees.FinalItemTold | alembic/versions/0042_replay_repair_and_media_generations.py:131-347 | Every delivery, replay and hydration column of a final item, from the original rows |
| RecoveryGuarantees.FinalJobTold | alembic/versions/0042_replay_repair_and_media_generations.py:131-380 | Every timestamp, replay column and kept selection of a final job, from the original rows |
| RecoveryGuarantees.LowerTold | alembic/versions/0042_replay_repair_and_media_generations.py:225-227 | Lower-casing of MIME types |
| RecoveryGuarantees.BackfillIdempotent | alembic/versions/0042_replay_repair_and_media_generations.py:121-427 | A second run changes only update timestamps |
| RecoveryGuarantees.ReplaceRecoveryChecks | alembic/versions/0042_replay_repair_and_media_generations.py:55-118 | The spliced check lists are the legacy and the expanded ones |
| RecoveryGuarantees.JobStatusValues | alembic/versions/0042_replay_repair_and_media_generations.py:55-118 | The expanded list admits every job status; the legacy list exactly those the downgrade leaves alone |
| RecoveryGuarantees.DowngradeAdmitted | alembic/versions/0042_replay_repair_and_media_generations.py:892-926 | Any state the new runtime wrote downgrades to values the old checks admit |
| RecoveryGuarantees.DowngradeTold | alembic/versions/0042_replay_repair_and_media_generations.py:892-926 | Which statuses and actions fold back to which, and that nothing else changes |
| RecoveryGuarantees.ItemRoundTrip | alembic/versions/0042_replay_repair_and_media_generations.py:121-926 | Upgrade then downgrade restores every item's action, and its status exactly when the backfill did not abandon it |
| RecoveryGuarantees.JobRoundTrip | alembic/versions/0042_replay_repair_and_media_generations.py:121-926 | A job's action always returns, its status exactly when it was neither live nor an incompatible preview |
| TrendEngine.HighSumTelescopes | alembic/versions/0040_public_trend_high_watermarks.py:258-286 | Summed deltas over any stretch equal the rise of the running high, from the first known value if none precedes, NULLs anywhere |
| TrendEngine.WindowIsStretch | alembic/versions/0040_public_trend_high_watermarks.py:287-301 | A time filter selects a contiguous stretch of the ordered snapshots |
| TrendEngine.WindowReportsRise | alembic/versions/0040_public_trend_high_watermarks.py:258-301 | Hence every time window reports exactly that rise |
| TrendEngine.WeeksOfHistory | alembic/versions/0040_public_trend_high_watermarks.py:287-301 | The recent column is the rise over the last week, the previous one over the week before |
| TrendEngine.RecentPlusPrevious | alembic/versions/0040_public_trend_high_watermarks.py:287-301 | Recent plus previous is the fourteen-day growth of a source |
| TrendEngine.MemeRecentPlusPrevious | alembic/versions/0040_public_trend_high_watermarks.py:287-301 | And of a meme, over all its sources |
| TrendEngine.StaleChangesNoDelta | alembic/versions/0040_public_trend_high_watermarks.py:258-286 | A late observation at or below the running high contributes nothing and changes no other delta |
| TrendEngine.StaleChangesNoTotal | alembic/versions/0040_public_trend_high_watermarks.py:258-286 | Nor the running total at any snapshot |
| TrendEngine.StaleChangesNoWindow | alembic/versions/0040_public_trend_high_watermarks.py:287-301 | Nor the sum of any time window, whatever time the observation carries |
| TrendEngine.LateRowInserted | alembic/versions/0040_public_trend_high_watermarks.py:258-273 | A late row takes a place in the window order and moves no other row |
| TrendEngine.LateRowChangesNoWindow | alembic/versions/0040_public_trend_high_watermarks.py:258-301 | Adding a late row that failed or says nothing new changes no time window of any source: 24 hours, recent week, previous week |
| TrendEngine.LateRowChangesNoMeme | alembic/versions/0040_public_trend_high_watermarks.py:258-301 | Nor any column of any meme |
| TrendEngine.HighAtMostLagExactly | alembic/versions/0023_source_engagement_public_read_models.py:173-198 | A high-water delta exceeds the adjacent one exactly where the preceding counter is NULL and the value still rises above the running high |
| TrendEngine.NullsBreakComparison | alembic/versions/0023_source_engagement_public_read_models.py:173-198 | 5, NULL, 9: growth 4, adjacent total 0 |
| TrendEngine.HighSumAtMostLagSum | alembic/versions/0023_source_engagement_public_read_models.py:173-213 | On NULL-free histories no high-water total exceeds the adjacent one |
| TrendEngine.AgreeExactly | alembic/versions/0023_source_engagement_public_read_models.py:173-198 | On NULL-free histories the two deltas agree exactly when a rise starts from the running high |
| TrendEngine.GrowingAgree | alembic/versions/0023_source_engagement_public_read_models.py:173-198 | On non-decreasing histories both are the plain increase, snapshot by snapshot |
| DailyTrends.SqlDailyRows | alembic/versions/0040_public_trend_high_watermarks.py:546-584 | The outer join and filter keep exactly the days with a positive metric, with that day's sums and counts over all sources of the meme |
| DailyTrends.DayBounds | alembic/versions/0040_public_trend_high_watermarks.py:546-556 | A day lasts from its midnight to the next |
| DailyTrends.DaySumsAddUp | alembic/versions/0040_public_trend_high_watermarks.py:546-556 | Grouping by day conserves totals |
| DailyTrends.HiddenRowIsZero | alembic/versions/0040_public_trend_high_watermarks.py:572-584 | A dropped day is zero in every metric |
| DailyTrends.UnionTotals | alembic/versions/0040_public_trend_high_watermarks.py:546-556 | Grouping the rows of several sources together keeps the sum of their growths |
| DailyTrends.PipelineConserves | alembic/versions/0040_public_trend_high_watermarks.py:505-584 | Over the shown days each source column adds up to the growth of all the meme's counters, each platform column to its number of events |
| SeedTrends.BuildPublicTrendSnapshotRows | scripts/seed_e2e.py:1442-1494 | The rows are a zero baseline one second before the first spec, then running sums |
| SeedTrends.DifferencingGivesSpecs | scripts/seed_e2e.py:1442-1494 | High-water differencing of those rows gives the specs back |
| SeedTrends.SourceMetrics | scripts/seed_e2e.py:1621-1650 | The first loop's dictionary holds the day rows of the snapshots |
| SeedTrends.PublicTrendDailyMetrics | scripts/seed_e2e.py:1621-1693 | The dictionary computation returns exactly the rows of the SQL pipeline |
| SeedTrends.DailyRowsAreSpecSums | scripts/seed_e2e.py:1621-1693 | Every day reports the sums of its own specs |
| RecommendationState.AggregateIsFold | alembic/versions/0043_personalized_recommendations_v2.py:296-325 | The grouped aggregates are one fold over the signals |
| RecommendationState.RowMeans | alembic/versions/0043_personalized_recommendations_v2.py:296-325 | A row holds the earliest sight of any kind and the latest of each kind, NULL exactly when there is none |
| RecommendationState.BackfilledTold | alembic/versions/0043_personalized_recommendations_v2.py:276-380 | Every column of a backfilled row from the events and saved rows themselves: which event kinds and actions count, for which user and meme; no row without any |
| RecommendationState.FoldConcat | alembic/versions/0043_personalized_recommendations_v2.py:368-377 | Folding two inputs and merging is folding their union |
| RecommendationState.FoldAnyOrder | alembic/versions/0043_personalized_recommendations_v2.py:270-391 | The fold does not depend on input order |
| RecommendationState.BackfillAnyOrder | alembic/versions/0043_personalized_recommendations_v2.py:270-391 | The result for every user and meme is the same for any order of the events and of the saved rows |
| RecommendationState.PhasesCommuteExactly | alembic/versions/0043_personalized_recommendations_v2.py:270-391 | The two phases give the same in the other order exactly where no event of a saved meme adds to its saved row |
| RecommendationState.RecommendationTables.BackfillSwapped | alembic/versions/0043_personalized_recommendations_v2.py:276-380 | The two statements run in the other order on fresh tables reach exactly the swapped result |
| RecommendationState.SwappingLosesImpression | alembic/versions/0043_personalized_recommendations_v2.py:336-380 | One impression and one saved row: the other order would lose the impression |
| RecommendationState.RecommendationTables.MergeDurable | alembic/versions/0043_personalized_recommendations_v2.py:340-380 | LEAST/GREATEST that ignore NULL combine each row with the fold of the saved rows |
| RecommendationState.RecommendationTables.Backfill | alembic/versions/0043_personalized_recommendations_v2.py:270-391 | The two phases equal one fold over the union of both inputs, and every column is the earliest, latest or number of exactly the events and saved rows that count for its user and meme |
| RecommendationFeatures.PercentRankInUnit | alembic/versions/0043_personalized_recommendations_v2.py:494-505 | A percent rank lies in [0, 1] |
| RecommendationFeatures.PercentRankOrders | alembic/versions/0043_personalized_recommendations_v2.py:494-505 | Rows of a partition compare by rank exactly as by key |
| RecommendationFeatures.PercentRankEnds | alembic/versions/0043_personalized_recommendations_v2.py:494-505 | The lowest key ranks 0, a key above all others 1 |
| RecommendationFeatures.QuantilesOrderCohort | alembic/versions/0043_personalized_recommendations_v2.py:494-505 | For any function increasing on the positive numbers, as the logarithm is, popularity orders a cohort by views and quality by smoothed rate |
| RecommendationFeatures.QuantilesTold | alembic/versions/0043_personalized_recommendations_v2.py:474-505 | A quantile is the share of the other rows of the cohort that have fewer views or a lower rate; the cohort mean is that of the cohort's own raw rates |
| RecommendationFeatures.AgeTold | alembic/versions/0043_personalized_recommendations_v2.py:417-423 | The age cohorts in seconds, older without a date |
| RecommendationFeatures.ActionsTold | alembic/versions/0043_personalized_recommendations_v2.py:464-466 | A forward weighs three reactions, a comment half of one, an unknown counter nothing |
| RecommendationFeatures.SourceBaseTold | alembic/versions/0043_personalized_recommendations_v2.py:458-473 | The measured rows are those of the sources with a snapshot and a view count |
| RecommendationFeatures.UpperQuartileInUnit | alembic/versions/0043_personalized_recommendations_v2.py:515-518 | The interpolated percentile of values in [0, 1] stays there |
| RecommendationFeatures.UpperQuartileSplits | alembic/versions/0043_personalized_recommendations_v2.py:515-518 | It splits the values: more than 3/4 of n - 1 at or below it, more than 1/4 at or above it |
| RecommendationFeatures.EvenlySpacedQuartile | alembic/versions/0043_personalized_recommendations_v2.py:515-518 | On evenly spaced values it lies three quarters of the way up |
| RecommendationFeatures.SmoothedBetweenExactly | alembic/versions/0043_personalized_recommendations_v2.py:458-492 | The smoothed rate lies between raw rate and cohort mean exactly when there are views or no actions |
| RecommendationFeatures.SmoothingShare | alembic/versions/0043_personalized_recommendations_v2.py:482-492 | Smoothing keeps views / (views + 100) of a source's distance from its cohort mean |
| RecommendationFeatures.ActionsWithoutViewsEscape | alembic/versions/0043_personalized_recommendations_v2.py:458-492 | One reaction and no views lifts a source above both |
| RecommendationFeatures.GroupsPartition | alembic/versions/0043_personalized_recommendations_v2.py:533-551 | Summing grouped exposures counts every exposed row once |
| RecommendationFeatures.MeanResponseInUnit | alembic/versions/0043_personalized_recommendations_v2.py:544-551 | The overall response lies in [0, 1], also with nothing exposed |
| RecommendationFeatures.MeanResponseTold | alembic/versions/0043_personalized_recommendations_v2.py:544-551 | The overall response is acted among exposed rows, one half without any |
| RecommendationFeatures.PlatformResponseBetween | alembic/versions/0043_personalized_recommendations_v2.py:578-581 | A meme's response lies between its own rate and the overall one |
| RecommendationFeatures.ResponseShare | alembic/versions/0043_personalized_recommendations_v2.py:578-581 | It keeps exposures / (exposures + 20) of the distance from the overall response |
| RecommendationFeatures.MemePopularityTold | alembic/versions/0043_personalized_recommendations_v2.py:507-521 | A meme's popularity is taken over one quantile for each of its measured sources |
| RecommendationFeatures.MemeQualityTold | alembic/versions/0043_personalized_recommendations_v2.py:507-521 | And so is its quality |
| RecommendationFeatures.TrendColumnsOrder | alembic/versions/0043_personalized_recommendations_v2.py:552-583 | The popularity column orders memes by popularity score, the trend column by trending score |
| RecommendationFeatures.FeaturesTold | alembic/versions/0043_personalized_recommendations_v2.py:563-583 | Which measure each column takes, and the one half where there is none |
| RecommendationFeatures.FeaturesInUnit | alembic/versions/0043_personalized_recommendations_v2.py:458-583 | Every quantile, quality and response column of every meme lies in [0, 1] |
| HealthFile.CheckRuntimeHealth | memexpert/runtime_health.py:199-266 | Accepts exactly the healthy files, returns their payload, and reports the first fault in the checker's order, an undecodable file included |
| HealthFile.OperationFault | memexpert/runtime_health.py:246-258 | An operation has no fault exactly if it is an object with a visible name and a deadline that is met or waived |
| HealthFile.OperationFaultTold | memexpert/runtime_health.py:246-258 | Which fault an operation has, each by its own condition |
| HealthFile.HeaderFaultTold | memexpert/runtime_health.py:218-245 | Which fault a header has, each by its own condition |
| HealthFile.ValuesTold | memexpert/runtime_health.py:220-251 | What equals version one, what counts as a number, which names are blank |
| RuntimeHealth.WrittenStably | memexpert/runtime_health.py:156-176 | The written operations are in deadline order, equal deadlines in entry order |
| RuntimeHealth.WrittenAll | memexpert/runtime_health.py:156-176 | And they are all of them |
| RuntimeHealth.OperationFields | memexpert/runtime_health.py:156-176 | The fields of a written operation |
| RuntimeHealth.PayloadFields | memexpert/runtime_health.py:156-176 | The fields of a written file |
| RuntimeHealth.FieldsTellCalls | memexpert/runtime_health.py:90-117 | Ready exactly if marked ready and not stopped since; draining exactly if marked draining and neither stopped nor marked ready since |
| RuntimeHealth.TrackedAreLive | memexpert/runtime_health.py:90-149 | The tracked operations are exactly those entered and not exited since the last stop |
| RuntimeHealth.TrackedExactly | memexpert/runtime_health.py:90-149 | They are entered-and-not-exited along a run exactly when no stop interrupts an operation |
| RuntimeHealth.StopDropsOperation | memexpert/runtime_health.py:90-95 | A stop during an operation drops it |
| RuntimeHealth.WrittenFileTellsHealth | memexpert/runtime_health.py:156-259 | For every state the verdict on its file: ready or draining, fresh, pid alive, and draining or no deadline passed |
| RuntimeHealth.FileTellsHealth | memexpert/runtime_health.py:90-259 | For every reachable reporter whose last write went through the file on disk gives the verdict on its present state |
| RuntimeHealth.FileTellsLastWrite | memexpert/runtime_health.py:90-259 | After failed writes, too, the file gives the verdict on the state it was last written from |
| RuntimeHealth.UnwrittenGoesStale | memexpert/runtime_health.py:151-259 | Without writes, as after a failed heartbeat, the file is rejected once stale |
| RuntimeHealth.LeftEntryGoesOverdue | memexpert/runtime_health.py:124-259 | An entry nobody will exit makes the process unhealthy once its deadline has passed |
| RuntimeHealth.HealthOfRun | memexpert/runtime_health.py:90-259 | The same in terms of the calls alone: marked ready or draining since the last stop, last write fresh, pid alive, and draining or no unfinished operation overdue |
| RuntimeHealth.RuntimeHealthReporter.Start | memexpert/runtime_health.py:79-88 | Writes once and starts the task; a second start does nothing; a failed write starts nothing |
| RuntimeHealth.RuntimeHealthReporter.Stop | memexpert/runtime_health.py:90-102 | Not ready, stopped, table cleared, written; a failed write leaves the task uncancelled |
| RuntimeHealth.RuntimeHealthReporter.MarkReady | memexpert/runtime_health.py:104-110 | Ready and running, written |
| RuntimeHealth.RuntimeHealthReporter.MarkDraining | memexpert/runtime_health.py:112-117 | Draining without touching readiness, written |
| RuntimeHealth.RuntimeHealthReporter.MarkProgress | memexpert/runtime_health.py:119-122 | Progress is noted, not written |
| RuntimeHealth.RuntimeHealthReporter.Enter | memexpert/runtime_health.py:124-144 | A new entry with its deadline; zero falls back to the default; a non-positive timeout is refused without effect; a failed write leaves the entry behind |
| RuntimeHealth.RuntimeHealthReporter.Exit | memexpert/runtime_health.py:145-149 | The entry is gone, progress noted, written |
| RuntimeHealth.RuntimeHealthReporter.HeartBeat | memexpert/runtime_health.py:151-154 | Rewrites the present state; a failed write ends the task |
| HttpRetry.DelayShape | scripts/seed_e2e.py:212-216 | Delays lie between 0.05 and 5 seconds, double below the cap, reach it on the sixth attempt, and honour a Retry-After in range |
| HttpRetry.Client.SleepBeforeRetry | scripts/seed_e2e.py:455-471 | Sleeps the delay or up to the deadline, never past it |
| HttpRetry.Client.Request | scripts/seed_e2e.py:390-453 | Fewer than budget / 0.05 + 1 attempts; no timeout or sleep past the deadline; every retry waits the delay of its attempt and reply; with a method and status list written out: a retryable request never returns a transient status, any other is sent at most once; the outcome is that of the last exchange, all earlier ones transient, and a function of clock and replies alone |
| HttpRetry.Client.Turn | scripts/seed_e2e.py:407-453 | One turn of the loop: at most one exchange and one pause, both fitting the deadline, or the end |
| HttpRetry.OverflowExactly | scripts/seed_e2e.py:212-216 | Some clock and some replies make the backoff overflow exactly when the request may be retried and its budget exceeds 51.2 seconds |
| HttpRetry.OverflowTakesTime | scripts/seed_e2e.py:212-453 | An overflow leaves behind at least 0.05 seconds for every attempt still to come |
| HttpRetry.BusyServerOverflows | scripts/seed_e2e.py:212-453 | An instant clock and a server that always answers 503 with Retry-After overflow whenever the time suffices |
| HttpRetry.DefaultBudgetOverflows | scripts/seed_e2e.py:114-216 | A GET with the default 180 seconds to such a server ends in the overflow |
| ConsumerWait.Broker.WaitUntil | scripts/run_container_e2e.py:790-902 | Fewer than timeout / poll + 1 inspections; returns at the first good observation, times out only after the deadline without one, reporting the last observation; a negative interval is refused at the first sleep, a zero one ends with the clock or a good observation |
| ConsumerWait.Broker.Poll | scripts/run_container_e2e.py:803-834 | One turn: an inspection that fits the deadline, judged, then a pause that fits it, or the end |
| ConsumerWait.NextPollFits | scripts/run_container_e2e.py:803-834 | While there is time left one more inspection stays within the bound, for every sign of the interval |
| ConsumerWait.WaitForPipelineConsumers | scripts/run_container_e2e.py:777-841 | Good means every required queue has a consumer |
| ConsumerWait.WaitForPipelineConsumerOwnership | scripts/run_container_e2e.py:844-902 | Good means every expected queue has exactly one consumer, of the expected role |
| ConsumerWait.OwnedMeans | scripts/run_container_e2e.py:844-902 | A queue nobody consumes is not owned |
| ConsumerWait.OneMorePoll | scripts/run_container_e2e.py:803-834 | The termination measure of both waits |
| ConsumerWait.InspectionOverruns | scripts/run_container_e2e.py:695-722 | An inspection may outlast the deadline exactly when less than 0.1 seconds are left, by less than that |
| VisibilityPolicy.ProvenanceExactly | alembic/versions/0031_ingest_provenance_visibility.py:76-127 | A source is a user upload exactly if owned, a crawler post exactly if unowned and of a known channel |
| VisibilityPolicy.UploaderTold | alembic/versions/0031_ingest_provenance_visibility.py:94-127 | A source's uploader is its request's owner, without one the meme's author |
| VisibilityPolicy.UploaderMatchesKindExactly | alembic/versions/0031_ingest_provenance_visibility.py:94-127 | Uploader and kind agree except where an ownerless request meets an authored meme |
| VisibilityPolicy.OwnerlessRequestDisagrees | alembic/versions/0031_ingest_provenance_visibility.py:94-127 | An ownerless request for a post of an authored meme: an uploader on a crawler source |
| VisibilityPolicy.TriggerMatchesBackfill | alembic/versions/0031_ingest_provenance_visibility.py:318-345 | A request an old writer inserts during the rollout ends up as the backfill would have left it; the trigger is idempotent and replaces nothing |
| VisibilityPolicy.Latest | alembic/versions/0031_ingest_provenance_visibility.py:234-245 | The latest settling decision, if there is one |
| VisibilityMigration.TruthsTold | alembic/versions/0031_ingest_provenance_visibility.py:234-261 | Which decisions settle, and what marks a meme blocked or crawled |
| VisibilityPolicy.ModeMeansFlagExactly | alembic/versions/0031_ingest_provenance_visibility.py:231-279 | After 0031 the flag equals the mode's meaning exactly where it followed the meme's history |
| VisibilityPolicy.BlockedPublicMemeDisagrees | alembic/versions/0031_ingest_provenance_visibility.py:231-279 | A public meme with a blocked hash: mode private, flag public, before and after 0033 |
| VisibilityPolicy.ModeFollowsDecision | alembic/versions/0031_ingest_provenance_visibility.py:248-297 | A decided meme gets the new mode backfilled on its latest settling decision |
| VisibilityPolicy.RestoredMeansFlagExactly | alembic/versions/0033_restore_crawler_visibility_and_ready_status.py:20-55 | The same after 0033; always for memes with no decision and no blocked hash, and only hidden crawled ones of those change |
| VisibilityPolicy.HiddenCrawledMemeIsRestored | alembic/versions/0033_restore_crawler_visibility_and_ready_status.py:20-55 | What 0031 pins private by mistake 0033 gives back |
| VisibilityMigration.ContentDatabase.CreateFavorites | alembic/versions/0031_ingest_provenance_visibility.py:132-160 | Every author of a private meme has Favorites, others get none, still one per owner |
| VisibilityMigration.ContentDatabase.ClosePrivateFavorites | alembic/versions/0031_ingest_provenance_visibility.py:161-175 | Favorites of such authors become private, nothing else changes |
| VisibilityMigration.ContentDatabase.EnsureOwnership | alembic/versions/0031_ingest_provenance_visibility.py:176-192 | Their owners are owning members; other memberships stay |
| VisibilityMigration.ContentDatabase.ChooseActiveCollections | alembic/versions/0031_ingest_provenance_visibility.py:193-210 | Only a missing active collection is set, to the user's own Favorites |
| VisibilityMigration.ContentDatabase.SavePrivateMemes | alembic/versions/0031_ingest_provenance_visibility.py:211-230 | Private authored memes are saved; existing saved rows stay as they are |
| VisibilityMigration.ContentDatabase.BackfillFavorites | alembic/versions/0031_ingest_provenance_visibility.py:129-230 | Every private authored meme is saved in a private Favorites its author owns; no collection, membership or saved row is lost |
| VisibilityMigration.ContentDatabase.Upgrade0031 | alembic/versions/0031_ingest_provenance_visibility.py:76-297 | The whole data upgrade; a decided meme's mode is the one recorded on its latest settling decision |
| VisibilityMigration.ContentDatabase.Upgrade | alembic/versions/0033_restore_crawler_visibility_and_ready_status.py:20-72 | Both revisions in a row: every private meme that had an author is saved for that author, what the flag means, which flags changed, and which files are ready |
| VisibilityMigration.ContentDatabase.RepairedMeansFlag | alembic/versions/0033_restore_crawler_visibility_and_ready_status.py:20-55 | Of one meme: author and creation time stay, the flag means the mode exactly if it followed history, and it changes only for hidden crawled memes |
| DeadLetterImport.UpsertLaws | memexpert/services/pipeline_reliability.py:332-380 | An upsert keeps other rows, takes over the headers and the higher death count, reopens a resolved row, and done again changes nothing |
| DeadLetterImport.UpsertKeepsLedger | alembic/versions/0034_operational_recovery_control_plane.py:354-386 | One row for each recorded key, with the highest death count and the latest headers |
| DeadLetterImport.RedeliveryCountsOnce | memexpert/services/pipeline_reliability.py:354-357 | Death counts depend only on which messages were recorded, not how often |
| DeadLetterImport.StepKeepsInv | scripts/import_pipeline_dlq.py:58-77 | Every step of every importer, producer and operator keeps the invariant |
| DeadLetterImport.RunKeepsInv | scripts/import_pipeline_dlq.py:58-77 | The same over whole runs with crashes and re-runs |
| DeadLetterImport.ImportIsSafe | scripts/import_pipeline_dlq.py:58-77 | Each message is in exactly one of queue, an importer's hands and acknowledged; acknowledged implies recorded; one row per key; rows come from real messages |
| DeadLetterImport.AcksWithinLimit | scripts/import_pipeline_dlq.py:58-77 | One run acknowledges at most its limit, and counts what it acknowledges |
| DeadLetterRun.Broker.ImportOne | scripts/import_pipeline_dlq.py:59-77 | One turn: nothing left, one more acknowledged, or given back and failed |
| DeadLetterRun.Broker.ImportDeadLetters | scripts/import_pipeline_dlq.py:39-80 | A run completes at the limit or on an empty queue and fails only if a turn does |
| DeadLetterRun.Broker.GiveBack | scripts/import_pipeline_dlq.py:73-75 | The held message is in the queue again |
| InlineIds.ResultIdRoundTrip | memexpert/bot/inline.py:741-767 | File id and recorded impression id come back from a result id of at most 64 characters |
| InlineIds.RecordedFits | memexpert/bot/inline.py:748-751 | The recorded impression id has at most 29 characters, and is the given one exactly if that has |
| InlineIds.ResultIdSpelled | memexpert/bot/inline.py:741-751 | Result ids and recorded impression ids as they are written |
| InlineIds.CallbackRoundTrip | memexpert/bot/inline.py:770-785 | Every button hands back its action, the file id and the recorded impression id, colons included |
| InlineIds.CallbackSpelled | memexpert/bot/inline.py:770-785 | Callback data as it is written, and what parses to nothing |
| InlineIds.RecordedIdIsStable | memexpert/bot/inline.py:748-751 | Building from the recorded impression id gives the same result id |
| InlineIds.ResultIdDetermines | memexpert/bot/inline.py:741-745 | Equal result ids mean equal format, file and recorded impression |
| InlineIds.ShortImpressionsSurvive | memexpert/bot/inline.py:748-767 | An impression id comes back unchanged exactly if it has at most 29 characters |
| InlineIds.EmptyImpression | memexpert/bot/inline.py:762-767 | An empty third part is no impression id |
| InlineIds.UuidRoundTrip | memexpert/bot/inline.py:754-759 | The hexadecimal file id parses back |
| InlineIds.UuidForms | memexpert/bot/inline.py:754-759 | Braces and hyphens are taken off; any number of digits but 32 is refused |
| InlineIds.Cut | memexpert/bot/inline.py:762-785 | Splitting at the first colon |
| UuidV7.Pack | e2e/helpers/api.ts:222-230 | In place: timestamp big-endian in the first six bytes, version 7, variant 10, every other random bit kept |
| UuidV7.FillTimestamp | e2e/helpers/api.ts:224-228 | The descending loop stores the timestamp modulo 2^48 big-endian and leaves the other bytes |
| UuidV7.MakeUuidV7 | e2e/helpers/api.ts:221-233 | The text of such bytes |
| UuidV7.TextIsHex | e2e/helpers/api.ts:231-233 | Without its hyphens the text is the sixteen bytes in hexadecimal |
| UuidV7.VersionMask | e2e/helpers/api.ts:229 | The version mask as a bit operation |
| UuidV7.VariantMask | e2e/helpers/api.ts:230 | The variant mask as a bit operation |
| UuidV7.TimestampReadsBack | e2e/helpers/api.ts:221-233 | A timestamp below 2^48 is read back from the text, any other modulo 2^48 |
| UuidV7.EarlierSortsFirst | e2e/helpers/api.ts:221-233 | An earlier timestamp below 2^48 gives a smaller text, whatever the random bytes |
| UuidV7.VersionAndVariantShow | e2e/helpers/api.ts:229-232 | The version digit is 7, the variant digit 8, 9, a or b, and the hyphens are in place |

## Left out

- Real Redis, Docker, PostgreSQL, RabbitMQ, HTTP and file system: each command is one atomic state change. Redis eviction and sub-second TTL rounding are not modelled; time is in whole seconds there.
- RateLimiter.AdmissionBoundIsTight: a key is gone in the very second of its expiry. With finer time, and a key still alive at its expiry instant, two creators are more than a window apart and the closed-interval maximum would be one less than twice the limit; the upper bound is not affected.
- Floating point and its NaN and infinities: reals. JSON numbers that are not finite, and files whose numbers overflow a float, are outside the health model.
- SQL as text, DDL, indexes and constraints other than the keys the proofs use; ids are numbers and md5 ids are fresh; timestamps are integers.
- Which analytics event types count as a view, send, save or like in the daily columns of revision 0040: events carry their kind. The weekly and 24-hour platform columns, plain counts, are not modelled.
- Parsing of analytics payloads (UUID pattern, lower-casing of the action) in revision 0043: the model starts from the parsed references.
- Selection documents of recovery jobs are JSON objects; a job whose selection is another JSON value is not modelled.
- RecoveryMigration.RecoveryDatabase.Downgrade: the columns and tables it drops are not modelled, only the values it rewrites.
- RunnerMain.RunContainerE2E: the artifact directory claim and artifact collection are not modelled; removal of all images is one step with one result.
- RunnerClaim.ForeignStackUntouched: resources other programs add to the project name during a run are not modelled.
- RecommendationFeatures.QuantilesOrderCohort: the logarithm is any function increasing on the positive numbers. Which channel represents a meme, and the choice of the latest snapshot, are not modelled.
- HttpRetry.Client.Request: the Retry-After header is already parsed into seconds.
- ConsumerWait.Broker.WaitUntil: with a zero poll interval a wait is modelled exactly if it ends, that is, if the clock passes the deadline or an observation is good within some horizon. A failed inspection is one case whatever its cause.
- VisibilityMigration.ContentDatabase.Upgrade0031: the second trigger for rolling deployments, which copies a first uploader to the meme's author, is not modelled. Revision 0032, between the two, drops columns and is not modelled.
- DeadLetterImport.Upsert: the digest behind the deduplication key, the stored payload and timestamps.
- InlineIds.ParseUuid: Python's integer parser also takes underscores, signs and spaces; the model takes hexadecimal digits only.
- InlineIds.CallbackRoundTrip: no bound on callback data is claimed, since its prefix is added after the length check on the result id.
- The operator's actions on recovery work, the pipeline workers, ranking at request time, tokens, cookies, CORS and rendering: other services, or plumbing.
