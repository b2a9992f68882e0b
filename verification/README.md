# BurnLens: verified models of the metering and budget protocols

BurnLens meters LLM traffic. A proxy reserves budget before it forwards a request, a cloud service ingests the
priced records, counts them against plan quotas, attributes their cost to business outcomes, and follows up on waste
findings. This project models the protocols that keep those numbers right and proves what they promise. Every SQL
statement is one atomic step; code that awaits between statements is modelled as a step machine over all
interleavings, and code that changes state in place is a class whose methods are proved against specification
functions. A run is any sequence of steps: a step that is not enabled changes nothing.

| files | subject |
|---|---|
| `UsageTable`, `UsageMachine`, `UsageConservation`, `UsageOvershoot`, `UsageThresholds`, `UsageMeter`, `UsageWebhooks` | ingest quota, usage cycles, 80%/100% mails, billing webhooks |
| `BudgetEngine`, `BudgetRuns`, `BudgetRaces` | budget reservation and reconciliation, with and without a shared lock |
| `Attribution`, `AttributionQueries`, `AttributionTotals`, `AttributionRows`, `AttributionFigures` | outcome attribution, its summary and coverage queries |
| `OutcomeLedger`, `RequestLedger` | idempotent ingest, corrections and history |
| `ApiKeyStore`, `ApiKeyRaces` | API keys, the legacy hash column and the auth cache |
| `RateLimit` | sliding-window limiter and rule choice |
| `Findings`, `FindingsRaces`, `SavingsRollup` | findings lifecycle and the savings rollup |
| `Totp`, `SpendCache` | one-time codes, the daily spend cache |
| `Options`, `Folds`, `Totals`, `Grouping` | optional values, sums over sequences, GROUP BY |

Money is `int` in units of 1e-8 USD where the column is NUMERIC(12,8), and `real` where the source uses floats.

## Where the code and its documentation part

- `check_and_reserve` is documented as atomic (burnlens/budget_engine.py:192), but its lock belongs to the engine
  object and the proxy builds one per request (burnlens/proxy/interceptor.py:803). `BudgetRuns` proves the
  properties of one engine. Without the shared lock a counter stays within its limit if and only if there is room for
  everything in flight together (`LimitHoldsIff`); `UnsharedLocksOvershoot` is a run that passes it.
- Two matched policies that share a counter row (the same name and the same period start) make the check too weak;
  `AdmissionNeedsDistinctCounters` gives the exact condition.
- Revoking is meant to take effect immediately (burnlens_cloud/api_keys_api.py:216-219). It does when handlers do not
  interleave (`RevokeIsFinal`). When they do, the cache is evicted before the legacy column is cleared, and a lookup in
  between can put the key back for one TTL (`RevokeCanLeaveAnEntry`). A revoke is final if and only if nothing fresh is
  cached for the hash and no lookup holds an answer when the column is cleared (`RevokeIsFinalIff`); it is sure to be,
  whatever runs in between, if and only if moreover no legacy column carried the hash (`SurelyFinalIff`). Both hold for
  a clock that may go back, where any entry counts as fresh, and for one that never does.
- Pausing does not clear the legacy column, so a paused legacy key keeps authenticating (`PauseBlocksUnlessLegacy`).
- "accepted_risk never reopens" (burnlens_cloud/findings.py:198) holds for uninterrupted passes. A pass writes back
  the status it read, so a change made in between is lost: `RaceReopensAcceptedRisk`, with the exact condition in
  `WriteIsAtomicIff` and `AcceptedRiskIsSafeIff`.
- `verification_history` is append-only only between reports of the finding: a pass that reports it replaces the whole
  evidence (`PassReplacesEvidence`, `TrailIsAppendOnlyBetweenReports`).
- Cost of an outcome row whose metadata lacks `outcome_type` or leaves it empty (the ingest endpoint always writes one:
  burnlens_cloud/models.py:200, burnlens_cloud/outcomes_api.py:138) is grouped as `unattributed` while the outcome itself
  is counted as `unspecified`, so the two land in different summary rows (`CostMeetsCountIffTyped`); no total is affected.
- `verify_code` says a code of a step at or below `min_step` is a replay (burnlens_cloud/totp.py:118-121). A code that
  two steps of the window share is refused as soon as the earlier one is used, although the later is not:
  `SharedCodeIsRefused`, with the exact condition in `AcceptedIff` and `FreshCodeIsRefusedIff`.
- The accepted step is read and written in separate statements (burnlens_cloud/totp_api.py:301, 93-105), so overlapping
  attempts can both be accepted (`OverlapAcceptsTwice`), and writes in the wrong order lower the stored step, after which
  a plain replay is accepted (`LoweredStepIsReplayed`). `AcceptedTwiceIff` gives the exact condition.
- The spend cache promises a 30-second age (burnlens/key_budget.py:101-108). The clock of an entry starts when it is
  stored, so the bound is one TTL plus the latency of the query (`CachedValueIsRecent`), and no less (`AgesAreAttained`).

## Model

| member | source | states |
|---|---|---|
| `UsageTable.DueClaimIsCrossing` | burnlens_cloud/ingest.py:292-340 | the ratio tests against 1.0 and 0.8 are integer crossings of the cap and of the least count that is 80% of it; 100% takes precedence |
| `UsageTable.StatementsMoveCounters` | burnlens_cloud/ingest.py:114-126 | the zero-row seed, the no-op upsert and the claims move no counter; the usage upsert moves one cycle by the batch's amount |
| `UsageMachine.WebhooksOnlySeed` | burnlens_cloud/billing.py:468-656 | no webhook statement touches a batch or a mail, and its only write to the usage table is a seed |
| `UsageConservation.StepConserves` | burnlens_cloud/ingest.py:256-274 | no statement changes a counter except together with the batch charged to it |
| `UsageConservation.CountersAreRecordedBatches` | burnlens_cloud/ingest.py:254-274 | in every interleaving each cycle's request, token and spend counters have grown by exactly the batches recorded to it |
| `UsageConservation.RequestCountNeverFalls` | burnlens_cloud/billing.py:591-609 | no request counter is ever lowered or reset and no cycle row disappears, whatever webhooks arrive |
| `UsageConservation.ReplaysChangeNothing` | burnlens_cloud/billing.py:379-392 | any interleaving of deliveries, quota reads and usage records ends in the state of the run without repeated event ids |
| `UsageConservation.EachEventOnce` | burnlens_cloud/billing.py:379-392 | in that deduplicated run every event id is delivered at most once |
| `UsageOvershoot.OvershootBound` | burnlens_cloud/ingest.py:40-49 | with at most K batches in flight, each adding at most B, counter plus admitted-but-uncounted never exceeds cap - 1 + K*B, for requests, tokens and spend |
| `UsageOvershoot.RequestOvershoot` | burnlens_cloud/models.py:176 | the bound for the request counter with the 10,000-record body limit |
| `UsageOvershoot.OvershootIsAttained` | burnlens_cloud/ingest.py:47-49 | for every cap, K and B some run reaches the bound exactly |
| `UsageThresholds.IntervalsTile` | burnlens_cloud/ingest.py:278-282 | the rebuilt intervals (prev, new] tile the counter: every level passed is passed by exactly one batch |
| `UsageThresholds.AtMostOneMail` | burnlens_cloud/ingest.py:314-359 | at most one mail per threshold and cycle in any interleaving, with any caps and any failures |
| `UsageThresholds.ClaimsStaySettled` | burnlens_cloud/ingest.py:314-359 | with a fixed cap the flag is up exactly when a batch that had to claim it has finished |
| `UsageThresholds.MailsAreExactlyTheCrossings` | burnlens_cloud/ingest.py:314-359 | once batches finish, the 100% mail was sent exactly if the counter passed the cap, the 80% mail exactly if a batch passed 80% without also passing 100% |
| `UsageThresholds.MailsStayHonest` | burnlens_cloud/ingest.py:322-336 | every mail names a finished batch that crossed that threshold, with the counter it saw and the limit it used |
| `UsageMeter.BatchAmounts` | burnlens_cloud/ingest.py:534-538 | a batch adds its record count, its input, output and reasoning tokens, and its cost |
| `UsageMeter.UsageStore.CheckQuota` | burnlens_cloud/ingest.py:54-184 | refuses for requests if the request cap is given, positive and at most the row's request count; else for tokens, else for spend, by their own caps and counts; else for seats if there are more members than a positive seat count; otherwise admits; no counter or flag moves |
| `UsageMeter.UsageStore.RecordUsage` | burnlens_cloud/ingest.py:256-359 | adds the batch to the row's three counters, raises the flag of the threshold passed (cap before four fifths of it) and mails if it was not up; the same as the step machine after upsert and claim |
| `UsageMeter.UninterruptedCheck` | burnlens_cloud/ingest.py:54-184 | a batch whose check steps nothing interrupts is cleared exactly when that answer is to admit, and leaves at most a zero row |
| `UsageWebhooks.CancelFrees` | burnlens_cloud/billing.py:617-629 | after a cancellation every workspace of the subscription is free and canceled, its other terms, ids and all other workspaces kept |
| `UsageWebhooks.FailedPaymentIsPastDue` | burnlens_cloud/billing.py:632-656 | a failed payment changes only the status, to past_due; the plan stays |
| `UsageWebhooks.UpdateSetsTerms` | burnlens_cloud/billing.py:556-583 | an update gives every workspace of the subscription the event's terms and touches no other |
| `UsageWebhooks.ActivationSetsBilling` | burnlens_cloud/billing.py:498-523 | an activation gives the named workspace its ids and terms and touches no other |
| `UsageWebhooks.UnnamedActivationIsIgnored` | burnlens_cloud/billing.py:482-487 | without a workspace id it changes nothing |
| `UsageWebhooks.LocatingFindsOwner` | burnlens_cloud/billing.py:593-597 | an update seeds only for a workspace that carries its subscription id, and gives up only when there is none |
| `UsageWebhooks.SeedingSeedsThePeriod` | burnlens_cloud/billing.py:536-548 | the seed is a zero row for the workspace's new period, unless that period has one |
| `UsageWebhooks.DeliveryStartsOneHandler` | burnlens_cloud/billing.py:379-392 | a new event id starts one handler, a known or missing one nothing |
| `BudgetEngine.FirstViolationFinds` | burnlens/budget_engine.py:237-260 | the check finds nothing exactly when all matched counters have room, otherwise the first one without |
| `BudgetEngine.Engine.MatchPolicies` | burnlens/budget_engine.py:162-216 | the matches are those of the policies in force, by the one field their scope is about, with the start of their current period |
| `BudgetEngine.Engine.CheckAndReserve` | burnlens/budget_engine.py:185-273 | refuses exactly when a policy in force has no room above what is read for its counter, or nothing can be priced; an admission writes what was read plus the estimate for each policy in force; a refusal leaves the table as it was |
| `BudgetEngine.MatchIs` | burnlens/budget_engine.py:92-101 | a match is of a policy in force, named for it, and starts its period: midnight, the Monday of the current seven days, or the first |
| `BudgetEngine.MatchingSplits` | burnlens/budget_engine.py:213-216 | policies are taken in order, each in force adding one match |
| `BudgetEngine.DecisionIs` | burnlens/budget_engine.py:218-273 | when a request is refused, unpriced or admitted, over counters, history and limits |
| `BudgetEngine.SpentPolicyRefuses` | burnlens/budget_engine.py:256-260 | whatever its scope, a policy in force whose counter row has no room refuses the request |
| `BudgetEngine.CommittedIs` | burnlens/budget_engine.py:242-268 | what an admission writes, counter by counter |
| `BudgetEngine.Engine.Reconcile` | burnlens/budget_engine.py:275-291 | every counter moves by actual minus estimate once for each match that names it, and no row appears or goes |
| `BudgetEngine.AddAllCounts` | burnlens/budget_engine.py:262-267 | an update loop moves a counter once for each match that names it and creates no row |
| `BudgetRuns.CountersAreConserved` | burnlens/budget_engine.py:236-291 | in every run each counter is its seed plus what its reservations are worth, with multiplicity, across period changes |
| `BudgetRuns.CounterIsSeedPlusOutstandingPlusSettled` | burnlens/budget_engine.py:236-291 | when nothing is reconciled twice: seed plus outstanding estimates plus settled actual costs |
| `BudgetRuns.AdmissionNeedsDistinctCounters` | burnlens/budget_engine.py:237-267 | passing the check keeps all matched counters within their limits if and only if no two matches share a counter row |
| `BudgetRuns.AdmissionIsAllOrNothing` | burnlens/budget_engine.py:237-268 | with distinct names a refusal changes nothing, an admission leaves every matched counter within its limit, and a named violation is a matching policy |
| `BudgetRuns.OvershootIsOnlyUnderestimates` | burnlens/budget_engine.py:282-291 | with distinct names no reachable counter exceeds its limit by more than the sum of max(0, actual - estimate) |
| `BudgetRaces.RacesOvershootBySlack` | burnlens/proxy/interceptor.py:802-806 | with checks and reservations of different requests interleaved, the excess is bounded by underestimates plus what was in flight beside a request |
| `BudgetRaces.CommittingAllReachesDue` | burnlens/budget_engine.py:262-268 | once all in flight are committed a counter is at its value plus everything that was aloft on it |
| `BudgetRaces.LimitHoldsIff` | burnlens/proxy/interceptor.py:802-806 | whatever is in flight, no order of commits takes a counter over its limit if and only if there is room for all of it together; for a counter without a row, above the history each request read |
| `BudgetRaces.AlwaysAirworthy` | burnlens/budget_engine.py:237-260 | every reachable state is one that condition applies to |
| `BudgetRaces.UninterruptedCheckCommits` | burnlens/budget_engine.py:235-268 | a check and its commit with nothing between are the engine's one decision |
| `BudgetRaces.UnsharedLocksOvershoot` | burnlens/proxy/interceptor.py:802-806 | for every limit two interleaved requests can take the counter to twice the limit |
| `Attribution.FirstExists` | burnlens_cloud/outcomes_api.py:218-236 | the ordered one-row subquery always has an answer |
| `Attribution.FirstIsUniqueUpToTies` | burnlens_cloud/outcomes_api.py:218-236 | any two answers agree on whether there is an outcome and on its time |
| `Attribution.LaterRequestsLaterOutcomes` | burnlens_cloud/outcomes_api.py:213-237 | within a workflow later requests are never charged to earlier outcomes |
| `Attribution.WiderWindowKeepsAttributions` | burnlens_cloud/outcomes_api.py:213-237 | a wider window keeps every attribution and only attributes more |
| `Attribution.NewOutcomeReach` | burnlens_cloud/outcomes_api.py:213-237 | a new outcome at time e changes only requests of its workflow with ts <= e < ts + window |
| `Attribution.NewOutcomeTakesOver` | burnlens_cloud/outcomes_api.py:213-237 | within that reach it takes over exactly the requests that had no earlier outcome |
| `AttributionQueries.ReportCoverage` | burnlens_cloud/outcomes_api.py:491-524 | the running totals are sums over all rows, the limit cuts only the breakdown |
| `AttributionTotals.JoinKeepsCosts` | burnlens_cloud/outcomes_api.py:285-287 | the full outer join loses and repeats no cost |
| `AttributionTotals.JoinKeepsCounts` | burnlens_cloud/outcomes_api.py:285-287 | the full outer join loses and repeats no accepted, rejected or failed outcome |
| `AttributionTotals.SummaryRowsAddUp` | burnlens_cloud/outcomes_api.py:239-248 | in every row total = accepted + rework + unattributed |
| `AttributionTotals.SummaryConserves` | burnlens_cloud/outcomes_api.py:205-289 | every cost column sums to that measure of the tagged requests, every count column to the outcomes of that status in the window |
| `AttributionTotals.OverviewIsTaggedSpendPerAccepted` | burnlens_cloud/findings.py:848-855 | cost per accepted is all tagged spend over all accepted outcomes, for all ties and row orders |
| `AttributionTotals.CostMeetsCountIffTyped` | burnlens_cloud/outcomes_api.py:218-228 | a request's cost lands in the row that counts its outcome exactly when the outcome has a type name |
| `AttributionTotals.CoverageConserves` | burnlens_cloud/outcomes_api.py:445-472 | the coverage columns sum to the corresponding measures of all requests in the window |
| `AttributionTotals.ReportsAgree` | burnlens_cloud/outcomes_api.py:491-524 | coverage total is all spend, its unattributed figure is the summary's unattributed column, attributed = accepted + rework in both, for independent ties and orders |
| `AttributionTotals.TiesDoNotMatter` | burnlens_cloud/outcomes_api.py:213-248 | what is attributed does not depend on how ties are broken |
| `AttributionTotals.WiderWindowMovesSpend` | burnlens_cloud/outcomes_api.py:213-248 | enlarging the window only moves spend from unattributed to attributed |
| `AttributionRows.RowsAreGroups` | burnlens_cloud/outcomes_api.py:239-287 | every joined row holds exactly the costs and counts of its workflow and kind, zeros where the join found no partner |
| `AttributionRows.OneRowPerGroup` | burnlens_cloud/outcomes_api.py:285-287 | no group has two rows |
| `AttributionRows.EveryGroupHasARow` | burnlens_cloud/outcomes_api.py:199-203 | a group that only spent and a group that only produced outcomes both appear |
| `AttributionFigures.FirstIsEarliestInWindow` | burnlens_cloud/outcomes_api.py:218-236 | a request is charged to an outcome of its workspace and workflow in [ts, ts + window) that no other such outcome precedes, and to none exactly when there is none |
| `AttributionFigures.SummaryColumns` | burnlens_cloud/outcomes_api.py:239-248 | the cost columns are the tagged spend of the query charged to any outcome or none, to accepted ones, to rejected and failed ones, and to none |
| `AttributionFigures.SummaryRowMeans` | burnlens_cloud/outcomes_api.py:239-287 | every cost and count of every row, over the fields of requests and outcomes |
| `AttributionFigures.CoverageColumns` | burnlens_cloud/outcomes_api.py:445-472 | the coverage figures are all spend of the query, charged to any outcome, to accepted ones, to rejected and failed ones, and untagged |
| `AttributionFigures.CoverageRowMeans` | burnlens_cloud/outcomes_api.py:463-471 | every figure of every workflow's row |
| `OutcomeLedger.CollapseRepeats` | burnlens_cloud/outcomes_api.py:107-115 | the loop keeps the first occurrence of every id |
| `OutcomeLedger.CollapsingIsHarmless` | burnlens_cloud/outcomes_api.py:107-115 | collapsing repeats first gives the table that inserting the whole batch gives |
| `OutcomeLedger.OutcomeStore.IngestOutcomes` | burnlens_cloud/outcomes_api.py:105-152 | accepted + duplicates = batch length, accepted = growth of the table, existing rows stay, every id of the batch has a row of that workspace and no other row appears |
| `OutcomeLedger.OutcomeStore.CorrectOutcome` | burnlens_cloud/database.py:1552-1599 | appends the prior state and replaces status and time, or changes nothing for an unknown id |
| `OutcomeLedger.BatchIsARun` | burnlens_cloud/outcomes_api.py:117-141 | a batch is a run of its insert statements, so the run theorems cover interleaved batches |
| `OutcomeLedger.RowIsFirstPostLastCorrected` | burnlens_cloud/database.py:1552-1599 | every row is its first post with the status of the last correction and the time of the last correction that gave one |
| `OutcomeLedger.ReplaysChangeNothing` | burnlens_cloud/outcomes_api.py:117-141 | rows and history are those of the run in which every id is posted once; replays never undo a correction |
| `OutcomeLedger.EachIdOnce` | burnlens_cloud/outcomes_api.py:117-141 | in that reduced run every id is posted at most once, and none that already has a row |
| `OutcomeLedger.FirstPostWins` | burnlens_cloud/database.py:567 | a posted row never changes except in status and time, and those only by correction |
| `OutcomeLedger.HistoryLeadsToCurrentRow` | burnlens_cloud/database.py:1575-1597 | each outcome's history chains from the first post to the current row |
| `OutcomeLedger.HistoryRecordsCorrections` | burnlens_cloud/database.py:1575-1589 | once an id is posted its history gains exactly one entry per correction, with its reason, status and time, and loses none |
| `OutcomeLedger.UnknownCorrectionLeavesNoTrace` | burnlens_cloud/database.py:1572-1573 | correcting an unknown id changes nothing |
| `RequestLedger.RequestStore.BulkInsert` | burnlens_cloud/ingest.py:509-526 | one insert per record in order, yielding to an existing event |
| `RequestLedger.IngestDeduplicates` | burnlens_cloud/ingest.py:509-526 | after any batches with retries and overlaps the table is the deduplicated concatenation |
| `RequestLedger.OneRowPerEvent` | burnlens_cloud/database.py:535-539 | every delivered (workspace, event id) has exactly one row |
| `RequestLedger.EventKeepsFirstDelivery` | burnlens_cloud/database.py:535-539 | that row is the first delivery |
| `RequestLedger.RetriesAreFree` | burnlens_cloud/ingest.py:524-525 | redelivering known events changes nothing |
| `RequestLedger.DeliveryIsStoredUnless` | burnlens_cloud/ingest.py:524-525 | a delivery is dropped exactly when its workspace has stored its event id |
| `RequestLedger.UnidentifiedAreKept` | burnlens_cloud/database.py:535-539 | rows without an event id are all kept, repeats included |
| `RequestLedger.WorkspacesAreIsolated` | burnlens_cloud/database.py:535-539 | what a workspace stores depends only on its own deliveries |
| `ApiKeyStore.ExecuteConsistent` | burnlens_cloud/database.py:1247-1297 | signup, backfill, create, rename, pause, resume and revoke keep one row per hash, one legacy holder per hash, and one owner for both |
| `ApiKeyStore.LookupsAgreeWithTables` | burnlens_cloud/auth.py:639-698 | in every run a lookup, cached or not, names only a workspace the hash is a credential of at that moment, and finds it whenever the tables would |
| `ApiKeyStore.RevokeIsFinal` | burnlens_cloud/api_keys_api.py:187-236 | after a successful revoke in any reachable state no later lookup returns a workspace, by cache, `api_keys` or legacy column |
| `ApiKeyStore.PauseBlocksUnlessLegacy` | burnlens_cloud/api_keys_api.py:239-266 | right after a pause the key authenticates if and only if its active workspace carries its hash in the legacy column |
| `ApiKeyStore.PauseHolds` | burnlens_cloud/api_keys_api.py:239-266 | a paused key without a legacy hash stays refused until it is resumed |
| `ApiKeyStore.KeyService.Lookup` | burnlens_cloud/auth.py:639-698 | an entry younger than the TTL answers; otherwise an unrevoked, unpaused row of an active workspace, else an active workspace's legacy column, with the current plan; the answer is cached, a miss evicts |
| `ApiKeyStore.ReadTablesIs` | burnlens_cloud/auth.py:665-694 | what the two reads find, over the fields of the rows |
| `ApiKeyStore.SignedUpKeyAuthenticates` | burnlens_cloud/auth.py:856-892 | a key handed out at signup authenticates for the new workspace on the free plan |
| `ApiKeyStore.BackfillKeepsAnswers` | burnlens_cloud/database.py:1291-1297 | the backfill gives a legacy key one usable row and changes no hash's answer |
| `ApiKeyStore.KeyService.CreateKey` | burnlens_cloud/api_keys_api.py:64-121 | refused exactly when the unrevoked keys of the workspace have reached the cap, otherwise one new usable row |
| `ApiKeyStore.KeyService.UpdateKey` | burnlens_cloud/api_keys_api.py:148-184 | renames an unrevoked key of the workspace and nothing else |
| `ApiKeyStore.KeyService.RevokeKey` | burnlens_cloud/api_keys_api.py:187-236 | marks the row, evicts the hash, clears the legacy column; not found changes nothing |
| `ApiKeyStore.KeyService.PauseKey` | burnlens_cloud/api_keys_api.py:239-266 | marks the row and evicts the hash |
| `ApiKeyStore.KeyService.ResumeKey` | burnlens_cloud/api_keys_api.py:269-294 | clears the pause of an unrevoked key, cache untouched |
| `ApiKeyRaces.CompletedRevokeKills` | burnlens_cloud/api_keys_api.py:221-233 | in every interleaving the last statement of a revoke leaves the hash dead in both tables |
| `ApiKeyRaces.StaleAnswersComeFromRacers` | burnlens_cloud/auth.py:650-697 | a lookup begun after completion is answered, if at all, by an entry less than one TTL old, stored after the eviction by a lookup of the same hash that read before the clearing |
| `ApiKeyRaces.FinalIff` | burnlens_cloud/auth.py:650-697 | for a hash dead in the tables no later lookup is ever answered, whatever runs, if and only if no lookup holds an answer and no entry is fresh: any entry on a clock that may go back, one younger than the TTL on a clock that never does |
| `ApiKeyRaces.RevokeIsFinalIff` | burnlens_cloud/api_keys_api.py:216-233 | in every interleaving and for either clock a completed revoke is final if and only if that is so when it clears the legacy column |
| `ApiKeyRaces.SurelyFinalIff` | burnlens_cloud/api_keys_api.py:216-233 | at any moment between eviction and clearing and for either clock, the revoke will be final whatever runs until then if and only if moreover no legacy column carries the hash |
| `ApiKeyRaces.StaleAnswersEnd` | burnlens_cloud/auth.py:650-656 | one TTL after the last such store every lookup misses the cache and finds nothing in the tables |
| `ApiKeyRaces.UninterruptedLookup` | burnlens_cloud/auth.py:639-698 | a lookup that nothing interrupts is the atomic one |
| `ApiKeyRaces.UninterruptedRevoke` | burnlens_cloud/api_keys_api.py:187-236 | a revoke that nothing interrupts is the atomic one |
| `ApiKeyRaces.UninterruptedPause` | burnlens_cloud/api_keys_api.py:239-266 | a pause that nothing interrupts is the atomic one |
| `ApiKeyRaces.RevokeCanLeaveAnEntry` | burnlens_cloud/api_keys_api.py:216-233 | a lookup that begins after the eviction and ends before the clearing leaves an answering entry |
| `RateLimit.SlidingWindowLimiter.Check` | burnlens_cloud/rate_limit.py:28-38 | admits exactly when fewer than the maximum remain after pruning; the bucket is pruned and, if admitted, extended |
| `RateLimit.LimiterRefinesHistory` | burnlens_cloud/rate_limit.py:28-38 | after any requests under a clock that never goes back, every bucket prunes to its key's admission history at all future cutoffs |
| `RateLimit.DequeAnswersLikeHistory` | burnlens_cloud/rate_limit.py:28-38 | the pruned deque answers exactly as counting the full history in [now - window, now] |
| `RateLimit.GrantsAreHistory` | burnlens_cloud/rate_limit.py:28-38 | over every run the times at which the deque admits a key are exactly those the full history admits |
| `RateLimit.AnyWindowIsBounded` | burnlens_cloud/rate_limit.py:28-38 | every closed interval of one window's length holds at most the maximum number of the deque's admissions of a key |
| `RateLimit.KeysAreIndependent` | burnlens_cloud/rate_limit.py:25-38 | what the deques grant a key depends on its own bucket and its own requests alone |
| `RateLimit.PrefixDeterminesRule` | burnlens_cloud/rate_limit.py:70-74 | first match ties every bucket key to one rule, even when rules share a prefix |
| `RateLimit.PassedIsGranted` | burnlens_cloud/rate_limit.py:70-82 | what the middleware lets through under a rule is what the limiter grants the requests it asks about |
| `RateLimit.MiddlewareBound` | burnlens_cloud/rate_limit.py:70-82 | for every rule list and traffic the middleware lets each client through at most a rule's maximum number of times in any window of that rule |
| `RateLimit.FirstMatchIs` | burnlens_cloud/rate_limit.py:70-73 | the rule of a path is the first whose prefix it starts with |
| `RateLimit.MiddlewareCountsPasses` | burnlens_cloud/rate_limit.py:70-82 | after any traffic a hit passes exactly when no rule matches it or its client has passed under the first matching rule fewer times than allowed in [now - window, now] |
| `RateLimit.RateLimitMiddleware.Dispatch` | burnlens_cloud/rate_limit.py:70-82 | unmatched paths pass and ask nothing; otherwise the first matching rule's bucket decides |
| `Findings.FindingsStore.SyncFindings` | burnlens_cloud/findings.py:151-225 | a pass inserts new findings as open and updates known ones, report by report |
| `Findings.FindingsStore.SetFindingStatus` | burnlens_cloud/findings.py:314-429 | invalid status, unknown finding or change; a resolve snapshots baseline and evidence |
| `Findings.StatusWords` | burnlens_cloud/findings.py:331-345 | each status word stores its own status and touches nothing else; any other word changes nothing |
| `Findings.ResolveSnapshots` | burnlens_cloud/findings.py:358-429 | a resolve stores the estimate, and the cost and requests of the cohort's workflow or model, or else of the finding's subject, over the window that ends when it takes effect; the intervention is filed and the one before it kept |
| `Findings.PassOnlyReopens` | burnlens_cloud/findings.py:162-225 | a pass changes status only from resolved to open, exactly for reported findings, counts every report, and leaves resolution and identity alone |
| `Findings.PassReplacesEvidence` | burnlens_cloud/findings.py:203-225 | a reported finding's evidence, estimate, severity, description and count are those of its last report, seen now |
| `Findings.FirstReportNames` | burnlens_cloud/findings.py:162-188 | a new finding takes its detector, subject and title from the first report of the pass, open, without a resolution |
| `Findings.DetectionsAreReports` | burnlens_cloud/findings.py:155-225 | over every run rows never vanish and detection_count equals the number of reports, repeats within a pass included |
| `Findings.ResolutionStays` | burnlens_cloud/findings.py:408-429 | resolved_at and baseline stay set once set and change only by another resolve |
| `Findings.SnapshotSurvives` | burnlens_cloud/findings.py:408-429 | the prediction snapshotted at resolve survives every later detection |
| `Findings.AlwaysBaselined` | burnlens_cloud/findings.py:336-429 | a resolved finding always has a baseline |
| `Findings.AcceptedRiskStays` | burnlens_cloud/findings.py:198-201 | an accepted risk stays accepted through any passes until someone sets its status |
| `Findings.TrailIsAppendOnlyBetweenReports` | burnlens_cloud/findings.py:369-384 | between reports the verification trail is append-only, one entry per resolve |
| `FindingsRaces.RacesKeepRowsAndCounts` | burnlens_cloud/findings.py:155-225 | in every statement-level interleaving rows and resolutions stay and the count is that of the reports that landed |
| `FindingsRaces.WriteIsAtomicIff` | burnlens_cloud/findings.py:158-225 | a late write equals an uninterrupted detection if and only if the status it saw reopens like the one there now |
| `FindingsRaces.UndisturbedResolveIsAtomic` | burnlens_cloud/findings.py:347-429 | a resolve whose finding has not changed since its read writes what an uninterrupted one would |
| `FindingsRaces.AcceptedRiskIsSafe` | burnlens_cloud/findings.py:158-225 | an accepted risk is safe from every interleaving if no write that saw another status was in flight |
| `FindingsRaces.ThreatIsReal` | burnlens_cloud/findings.py:158-225 | any such write ends the accepted status when it lands |
| `FindingsRaces.AcceptedRiskIsSafeIff` | burnlens_cloud/findings.py:158-225 | while nobody changes its status an accepted risk stays accepted in every interleaving if and only if no write that saw another status is in flight |
| `FindingsRaces.RaceReopensAcceptedRisk` | burnlens_cloud/findings.py:158-225 | a read just before the acceptance and a write just after it reopen the finding |
| `SavingsRollup.VerifiedIsPositive` | burnlens_cloud/findings.py:526-600 | verified means measured, enough traffic, cheaper and not degraded, and its figure is positive; only unmeasured verdicts have none |
| `SavingsRollup.JudgementIs` | burnlens_cloud/findings.py:526-592 | the verdict in every case |
| `SavingsRollup.FigureIs` | burnlens_cloud/findings.py:587-599 | the projected saving is the saving per request, times the current requests, times thirty over the window's days |
| `SavingsRollup.MonthlyIs` | burnlens_cloud/findings.py:925-928 | a prediction is thirty days' worth of the baseline waste; no window or one of zero days is seven |
| `SavingsRollup.BestFirstSorts` | burnlens_cloud/findings.py:617-619 | the sort is a permutation, best projected saving first |
| `SavingsRollup.BestFirstIsStable` | burnlens_cloud/findings.py:617-619 | equally good verdicts keep their order |
| `SavingsRollup.VerifyAllResolved` | burnlens_cloud/findings.py:603-619 | a verdict for each finding with a baseline, sorted, none lost |
| `SavingsRollup.CreditedAndSharing` | burnlens_cloud/findings.py:973-981 | every verdict is credited or shared, never both |
| `SavingsRollup.SharesIffSameKey` | burnlens_cloud/findings.py:931-935 | two verdicts share a credit for the same change and cohort, or for the same finding; mixed, for a change called "finding" in a cohort called like the other's fingerprint |
| `SavingsRollup.CreditedUnlessShared` | burnlens_cloud/findings.py:973-981 | a verdict is credited exactly when no earlier one shares its credit |
| `SavingsRollup.EachKeyCreditedOnce` | burnlens_cloud/findings.py:931-935 | every credit key is credited exactly once |
| `SavingsRollup.CreditedIsGreatest` | burnlens_cloud/findings.py:964-981 | the credited verdict has the greatest projected saving of all with its key |
| `SavingsRollup.TallyVerdicts` | burnlens_cloud/findings.py:966-989 | the loop's totals and counts are the sums over credited and shared verdicts |
| `SavingsRollup.SavingsTotals` | burnlens_cloud/findings.py:938-1008 | every reported figure, and a realisation ratio exactly when something has been judged |
| `SavingsRollup.CreditedPlusShared` | burnlens_cloud/findings.py:973-981 | credited plus shared predictions are the predictions of all verdicts |
| `SavingsRollup.CountsAddUp` | burnlens_cloud/findings.py:973-992 | all counts but open add up to the number of verdicts |
| `SavingsRollup.VerifiedFigureIff` | burnlens_cloud/findings.py:986-989 | the verified figure is never negative, and positive if and only if some key's credit went to a verified finding |
| `SavingsRollup.RollupConserves` | burnlens_cloud/findings.py:949-989 | resolved plus shared equals the predictions of all findings with a baseline, and the credited part splits over the six verdict states |
| `Totp.VerifyCode` | burnlens_cloud/totp.py:109-140 | the bounded search answers with the earliest matching step unless that step is used up |
| `Totp.AcceptedIsFresh` | burnlens_cloud/totp.py:109-140 | an accepted step is above min_step, within one of the clock's step, and its code is the one given |
| `Totp.AcceptedIff` | burnlens_cloud/totp.py:123-140 | accepted if and only if well formed, the code of some step of the window, and of no used step of the window |
| `Totp.FreshCodeIsRefusedIff` | burnlens_cloud/totp.py:130-139 | the code of an unused step is refused if and only if a used step of the window has the same code |
| `Totp.SharedCodeIsRefused` | burnlens_cloud/totp.py:130-139 | an input at which that happens |
| `Totp.StepHolds` | burnlens_cloud/totp.py:105-106 | the step of a reading is the thirty seconds that hold it |
| `Totp.GroupedCodeIsRead` | burnlens_cloud/totp.py:123-125 | digits in two groups, with blanks between and white space around, are read as one code |
| `Totp.NoStepIsAcceptedTwice` | burnlens_cloud/totp.py:109-140 | over all attempts and clock readings accepted steps strictly increase (section 5.2 of RFC 6238) |
| `Totp.AcceptancesAreBounded` | burnlens_cloud/totp.py:105-140 | acceptances with clock readings in [t1, t2] number at most step(t2) - step(t1) + 3 |
| `Totp.AcceptedTwiceIff` | burnlens_cloud/totp_api.py:301-303 | when attempts overlap, no step is accepted twice, for any secret, any order of the pending writes and any later attempts, if and only if all steps differ, every pending step is at least every accepted and pending one, and with none pending the stored step is not below an accepted one |
| `Totp.OverlapAcceptsTwice` | burnlens_cloud/totp_api.py:301-303 | two attempts with one acceptable code that read before either writes are in a state where that fails |
| `Totp.LoweredStepIsReplayed` | burnlens_cloud/totp_api.py:93-105 | two attempts with different codes that write in the wrong order lower the stored step, and the later code is accepted again |
| `Totp.SecondFactor.Attempt` | burnlens_cloud/totp_api.py:93-105 | an accepted step is stored as the new minimum, a refusal changes nothing |
| `SpendCache.Cache.GetTodaySpend` | burnlens/key_budget.py:114-132 | a fresh entry answers with its reading and nothing changes, otherwise the call is one query and its store and answers with the stored spend |
| `SpendCache.Cache.Invalidate` | burnlens/key_budget.py:134-135 | the run step that drops one label |
| `SpendCache.Cache.Clear` | burnlens/key_budget.py:137-138 | the run step that drops every label |
| `SpendCache.Cache.EnforceDailyCap` | burnlens/key_budget.py:150-174 | no label or no cap passes without a read; a refusal is one the table itself gives; a request passes against the table only on a fresh entry below the cap |
| `SpendCache.CachedValueIsRecent` | burnlens/key_budget.py:114-132 | in every run whose queries store within d, a fresh value is the stored spend of an instant less than TTL + d ago; d = 0 is the atomic case |
| `SpendCache.SpentIsOwnCosts` | burnlens/storage/database.py:1942-1964 | the stored spend of a label is the sum of the costs of its own rows |
| `SpendCache.AgesAreAttained` | burnlens/key_budget.py:120-131 | for every positive TTL and every d a reading is still served at any age below TTL + d |
| `SpendCache.CacheNeverBlocksEarly` | burnlens/key_budget.py:150-174 | enforcement on any value the cache or a query gives never refuses what a direct read would admit |
| `SpendCache.LateBlocksAreRecent` | burnlens/key_budget.py:150-174 | a wrong admission happens only when the cap was reached by charges written less than TTL + d ago |

## Left out

- UsageOvershoot.RequestOvershoot: assumes a fixed cap and cycle for the workspace, as the bound is about one cycle under one plan.
- SpendCache.CacheNeverBlocksEarly: holds within one local day, because entries are keyed by label only and survive midnight.
- Totp.NoStepIsAcceptedTwice: is about attempts that do not overlap; `AcceptedTwiceIff` says what overlapping ones can do.
- Totp.VerifyCode: a code's digits are the ASCII ones; `isdigit` also passes other Unicode digits to the TOTP library, which is not modelled.
- SpendCache.Cache.GetTodaySpend: one uninterrupted call; calls that interleave are steps of the run.
- SavingsRollup.RollupConserves: takes the baseline rows and the verdicts from one state of the table; the source reads them in two statements.
- Findings.FindingsStore.SetFindingStatus: the intervention's optional texts are a map, and baseline spend is a function parameter.
- Selection of the current cycle (free: calendar month, paid: latest open row): any cycle may be chosen at each statement, which covers all selections.
- Backfill of `api_keys` as one set-based statement: modelled one workspace at a time, which covers it.
- Hash collisions: a generated key's hash is assumed not to have been issued before; SHA-256, bcrypt, Fernet and HMAC are not modelled.
- BudgetRaces: one request's check and one request's reservation are each one step; SQLite locking between their statements is not modelled.
- Key names, `last4`, `last_used_at` and name trimming: no effect on authentication.
- Time zones, calendar arithmetic for month starts, float rounding and `round(...)`: exact numbers and integer or real instants instead.
- Pricing, token estimation, waste detectors and the recommender: they only produce inputs of the modelled protocols.
- Business value and currency columns of the summary, and the provider concentration query: further columns of the same grouping.
- `transaction.completed` and Paddle API-key events: they write no usage row and no subscription state modelled here.
- Streaming ingest through Kafka and ClickHouse: it has no deduplication and no shared state.
- Caches in several processes: each process has its own, and nothing connects them but the tables.
- Lockout after failed one-time codes, recovery codes and re-enrolment: simple counters and lists.
- Alert cooldowns and weekly digests: sequential timers.
- The older `api/` package, CLI, HTML, mail templates, configuration and schema migrations: presentation and plumbing.
- Paddle, OAuth, SMTP, Slack, Teams and GitHub calls: network input and output.
