# A verified model of the offline evaluation and migration scripts

The repository predicts the risk of failure of production assets and evaluates, offline, the workflow that
writes review summaries about them. This project models its five algorithmic cores in Dafny and proves what
they promise, for every input, every run and every behaviour of the services behind them.

* **Risk-rise detection** (`risk_*.dfy`). Prediction rows are grouped by asset, sorted and checked; a greedy
  index and cursor scan opens a run at a step that crosses the threshold, follows it while the probability
  rises within the allowed gap, emits an event and jumps past the row that ended it. The scan is proved equal to
  a declarative meaning that mentions no scan: one run for each maximal rising segment that holds a trigger. A batch
  gives exactly the events of these runs, by asset and in turn (`risk_batch.dfy`), or the first complaint about its rows
  (`risk_faults.dfy`). Detection followed by ranking is proved total and independent of the order of its input.
* **Generation-policy scheduler** (`generation_policy.dfy`, `scheduler*.dfy`). A tick is change, completion,
  watcher, refresh, query, over an arbitrary calendar and an arbitrary decision procedure. Conservation, spacing,
  retry bounds, log replay and bounded liveness are proved over whole runs. What every decision is told
  (`scheduler_decisions.dfy`) and when it is held back (`scheduler_guards.dfy`) is read off the calendar, the log and the
  decisions before it.
* **Workflow harness** (`harness*.dfy`, `reliability_rows.dfy`). A bounded retry loop around an arbitrary provider, a
  deterministic fallback, injected faults and a summary cache, run over a shuffled job list. Packets, the contract validator,
  the merge and the summary key are arbitrary functions; checking, merging and validating may raise. Which replies are
  complained about, and every field of a row, is told from the replies alone (`harness_replies.dfy`). Beside it stand
  the checks of the reliability rows and what they mean for the aggregate.
* **Link rewriting under a file move** (`paths.dfy`, `doc_*.dfy`). The algebra of normpath, join and relpath over path
  text, and the rewriting of a link target, a whole link and a whole document: when a link still leads to what it led to
  (`doc_routes.dfy`), when its wrapper holds the new target (`doc_text.dfy`), when a document keeps its links
  (`doc_pieces.dfy`, `doc_rewriting.dfy`), and when a pass changes nothing (`doc_tidy.dfy`, `doc_stability.dfy`,
  `doc_untouched.dfy`). `doc_kept.dfy` says which targets are never rewritten; `doc_breaks.dfy` shows names that break a link.
* **Schedules and stores** (`seed_*.dfy`, `luna_*.dfy`, `interleave*.dfy`, `percentile.dfy`). The append-only seed store,
  the resumable round-robin runs and their report, whose figures are told from the commands given (`luna_outcomes.dfy`),
  the rotating comparison and the gate that checks its rows, and the nearest-rank percentile.

`wrappers.dfy`, `white_space.dfy`, `hash_text.dfy`, `ordering.dfy`, `counting.dfy` and `division.dfy` hold what several of them share.

Imperative code is modelled by methods and classes, each proved equal to a specification function; the lemmas
say what that function means. `dafny verify dfyconfig.toml` checks everything.

## Where the code does not do what one would expect

Each of these is proved, at a concrete input or as a condition on the inputs that a caller can check before the call.

* A resolved link that is exactly `..` passes the guard, which only stops `../…`. Its rewritten form still leads
  to the parent of the root, unless the working folder is the file-system root: `DocLinks.GuardMeans`,
  `DocLinks.ParentOfRoot`, `DocLinks.RewrittenPathDenotesMovedTarget`.
* The rewriter does not escape names. Take the folder of the new source and the place the link leads to after the
  move. The link still leads there exactly when no name on the way down from their common folder holds a `#` (or
  a `?` while the fragment has no `#`), and the way does not start with a name such as `mailto:x` that reads as an
  external link: `DocRoutes.RewrittenTargetDenotes`; it fails in `DocLinks.HashInFolderName`.
* Nor does it escape the wrapper. A rewritten link keeps its wrapper and title exactly when the new target fits: without
  angle brackets no name on the way down may hold white space (unless it holds a new line and nothing stands around
  it) or open a bracket that is closed behind it, and within them none may hold a `>`: `DocRewriting.FitsExactly`. A
  space cuts the link short: `DocBreaks.SpaceCutsLink`. The link follows the move exactly when its target fits and
  survives: `DocRewriting.LinkFollows`.
* A closing parenthesis in a name on the way down ends the link, and the rest of the name is left over as text:
  `DocBreaks.ParenthesisEndsLink`. The document keeps its characters and links exactly when no rewritten link has such
  a name: `DocRewriting.StructureKeptExactly`.
* For the same reason rewriting twice is not always rewriting once. With `a` moved to `x/#y` the link `a` of the
  document `s` becomes `x/#y` and then `x#y`: `DocStability.RewritingTwiceDiffers`. Twice equals once exactly when
  no name on that way hides a separator, or the second pass leaves the cut text alone, as external or without
  a path, or the part in front of the cut is the direct way, without a slash at its end, to a place that is not moved
  itself; and for a link to the parent of the root at the file-system root exactly when `.` is not moved:
  `DocStability.RewritingIsIdempotent`. A pass leaves a document alone exactly when each of its links is tidy and leads
  to a place that is not moved: `DocRewriting.DocumentIsUntouched`.
* Splitting a link of nothing but white space yields that white space twice: `DocText.SplitRawRoundTrip`.
* With a completion latency of zero a generation starts and never ends, so nothing is ever stored:
  `SchedulerSafety.ZeroLatencyLosesTheStart`, and `SchedulerSafety.NoOutcomeWithoutLatency` for every run.
* The summary of a simulated scenario fails on a critical step during which no watcher tick falls, whatever the
  policy: `SchedulerSummary.SummaryExactlyWhenAsked`. With steps at 0, 1 and 2 and a watcher period of 2 it always
  fails on the second step: `SchedulerSummary.FastStepIsMissed`.
* A simulated run raises on a query before the first change, and completes exactly when there is none:
  `SchedulerQueries.CompletesExactlyWhen`.
* A `#` in an equipment id, together with one in a scenario id, can make two scenarios share a store key, and the
  second row is lost as a replay, at any times: `SeedStore.HashInEquipmentLosesRow`. Without a `#` in the equipment ids and
  times, or without one in the scenario ids, it cannot: `SeedStore.KeysSeparateIds`.
* A negative run index is accepted and reaches a run under a second name, so that a settled run is executed once more and
  counted twice: `LunaRuns.NegativeIndexRunsAgain`.
* The validation that decides on acceptance is not guarded. A suite raises exactly when some B3 job falls back to a
  baseline over which the validator raises: `HarnessSuite.RaisesExactly`.
* A reliability row whose status stands for a flag that it does not set is accepted and is missing from every counter:
  `ReliabilityRows.AggregateAddsUp`.

## Model

| member | source | states |
|---|---|---|
| RiskRise.FollowRise | experiments/preventive_intervention/risk_rise.py:91-106 | The cursor loop stops at the first step that does not extend the rise; every step before it does, and the cause names why: end of data, too long a gap, or a row that does not rise |
| RiskRise.DetectInTimeline | experiments/preventive_intervention/risk_rise.py:78-138 | The index loop returns the events of the scan specification, in order |
| RiskRise.EventsAreEmittedRuns | experiments/preventive_intervention/risk_rise.py:108-138 | Emitting during the scan gives the same events as filtering and converting the finished list of runs |
| RiskScan.ScanIsExact | experiments/preventive_intervention/risk_rise.py:78-138 | The greedy scan finds exactly the runs of the declarative meaning, in ascending order: a first trigger of its rise, followed to the end of the rise |
| RiskScan.OneRunPerSegment | experiments/preventive_intervention/risk_rise.py:78-138 | A maximal segment of within-gap rising rows yields exactly one run, from the row before its first trigger to its last row |
| RiskScan.NoTriggerNoRun | experiments/preventive_intervention/risk_rise.py:84-89 | A maximal segment without a trigger touches no run |
| RiskScan.TriggerIsCovered | experiments/preventive_intervention/risk_rise.py:136-138 | Jumping past the row that ended a run loses no trigger: every trigger lies in a run that ends where its rise ends |
| RiskScan.PeakIsStrictMaximum | experiments/preventive_intervention/risk_rise.py:92-109 | The peak is strictly above every earlier row of its run |
| RiskScan.RunsAreDisjoint | experiments/preventive_intervention/risk_rise.py:108-112 | Successive runs have disjoint rows and share at most one source row, only after a run that ended on a row that did not rise |
| RiskProperties.EventsMeetContract | experiments/preventive_intervention/contracts.py:138-168 | The events are exactly the declarative runs that rise enough in total, and each passes every check of the event model |
| RiskProperties.EventsInTurn | experiments/preventive_intervention/risk_rise.py:136-138 | The events of one asset come in time order and overlap in at most one instant, after a row that did not rise |
| RiskProperties.GapComposition | experiments/preventive_intervention/risk_rise.py:82-101 | Splitting a timeline at a gap splits its events, except that a run that ends the first half is then labelled as ended by the gap |
| RiskProperties.RaisingTotalFilters | experiments/preventive_intervention/risk_rise.py:113-114 | Raising only the minimum total increase filters the old event list and changes nothing else |
| RiskProperties.RaisingStepShrinksEvents | experiments/preventive_intervention/risk_rise.py:83-114 | Raising only the minimum step makes no event appear where there was none: each event is an old one with its first rows taken off, with the same peak, end and cause, a start no earlier and a rise no larger |
| RiskDetection.GroupPoints | experiments/preventive_intervention/risk_rise.py:62-65 | The grouping loop gives each asset its eligible rows in input order, and no other asset an entry |
| RiskDetection.CheckAdjacent | experiments/preventive_intervention/risk_rise.py:70-76 | The check reports the first fault of adjacent rows, and none exactly when no adjacent pair has one |
| RiskDetection.DetectRiskRiseEvents | experiments/preventive_intervention/risk_rise.py:56-140 | The whole detector returns the specified events of all assets in name order, or the first fault |
| RiskOrder.AssetsExact | experiments/preventive_intervention/risk_rise.py:62-65 | The groups are exactly the assets with an eligible row, each once |
| RiskOrder.AcceptedIffClean | experiments/preventive_intervention/risk_rise.py:69-76 | A sorted group passes the adjacent checks exactly when no two of its rows disagree or share a time, and then its times strictly rise |
| RiskOrder.DetectsIffClean | experiments/preventive_intervention/risk_rise.py:68-76 | Detection raises exactly when two eligible rows of one asset disagree on type or model or share a time |
| RiskOrder.DetectionIgnoresOrder | experiments/preventive_intervention/risk_rise.py:62-76 | For every permutation of the rows detection raises on both or returns the same list |
| RiskOrder.DetectionMeetsContract | experiments/preventive_intervention/contracts.py:155-168 | Every event of any batch passes the event validator |
| RiskBatch.DetectionIsExact | experiments/preventive_intervention/risk_rise.py:56-140 | For every accepted batch an event is returned exactly when it describes, field by field, a run of the time-ordered eligible rows of some asset that rises enough in total |
| RiskBatch.EveryRunOnce | experiments/preventive_intervention/risk_rise.py:78-138 | Each such run of each asset has its event in the result exactly once |
| RiskBatch.EventNamesItsRun | experiments/preventive_intervention/risk_rise.py:115-135 | No two runs, of one asset or of two, share an event |
| RiskBatch.DetectionIsInOrder | experiments/preventive_intervention/risk_rise.py:67-138 | The events stand by ascending asset name and, within an asset, in turn |
| RiskBatch.RunsInNumbers | experiments/preventive_intervention/risk_rise.py:82-106 | A run in times and probabilities: it starts at the row before a jump of at least the minimum step, goes up near row by near row until that ends, and no earlier jump reaches it in the same way |
| RiskFaults.DetectionRaises | experiments/preventive_intervention/risk_rise.py:62-76 | Detection raises a complaint exactly when it is about the first asset by name that has one, and is the first among its rows by time and, for equal times, by place in the batch |
| RiskFaults.TimelineIsTold | experiments/preventive_intervention/risk_rise.py:62-69 | The scanned rows of an asset are its eligible rows by time, those of one time in the order of the batch |
| Ordering.SortIsStable | experiments/preventive_intervention/risk_rise.py:69 | Sorting keeps the order of elements that the order cannot separate |
| Ordering.LexMeans | experiments/preventive_intervention/risk_rise.py:67 | Text comes first if it is a prefix, or has the smaller character at the first difference |
| RiskRanking.RankEventsByRiskFactor | experiments/preventive_intervention/risk_rise.py:143-194 | The ranking loops return the specified ranking or its first error |
| RiskRanking.IndexExact | experiments/preventive_intervention/risk_rise.py:152-163 | The row index exists exactly when no two considered rows share asset and time, and then holds exactly those rows |
| RiskRanking.EntriesExist | experiments/preventive_intervention/risk_rise.py:165-173 | The ranking raises for a missing peak exactly when some event's peak row is not indexed |
| RiskRanking.RankingIsSortedMatches | experiments/preventive_intervention/risk_rise.py:174-194 | The result is a permutation of the events with a matching risk-up factor, sorted by rise, strongest contribution and id |
| RiskFactors.RankingIsTold | experiments/preventive_intervention/risk_rise.py:165-194 | A ranking returns an event exactly as often as given if a row of its asset at its peak has a risk-up factor on a feature with the prefix, and otherwise never; any two stand in order of rise, then of their largest such contribution, then of id |
| RiskFactors.RankingRaises | experiments/preventive_intervention/risk_rise.py:152-173 | It raises for the first repeated row or else for the first event without a row, naming its asset and time, and returns exactly when there is neither |
| RiskRanking.PipelineIsTotal | experiments/preventive_intervention/cli.py:65-85 | Ranking the detected events over the same rows and the policy's asset types never raises |
| RiskRanking.IdsAreUnique | experiments/preventive_intervention/risk_rise.py:117 | Two events of one detection with the same id are the same event |
| RiskRanking.PipelineIgnoresOrder | experiments/preventive_intervention/cli.py:65-85 | Detection and ranking give one list for every order of the rows, and of the events handed on |
| GenerationPolicy.GeneratesExactlyWhen | systems/backend/app/operations/agent_review_summary_generation_policy.py:259-298 | As the simulator asks it, the policy generates exactly for a current packet that is refreshed, or that is not stored under a policy other than click and, under hybrid, materially changed |
| GenerationPolicy.TableIsExact | systems/backend/app/operations/agent_review_summary_generation_policy.py:263-303 | For every policy and all arguments: when it pregenerates, reuses and generates, which eligibility it reports, and each reason exactly when it applies |
| Scheduler.Simulation.CompleteDue | scripts/evaluate_agent_review_generation_policy.py:79-89 | The completion loop over the jobs in flight at the start of the phase leaves the specified state |
| Scheduler.Simulation.Ask | scripts/evaluate_agent_review_generation_policy.py:93-113 | One decision with its guards, counters and new job leaves the specified state |
| Scheduler.Simulation.Advance | scripts/evaluate_agent_review_generation_policy.py:73-116 | One tick runs change, completion, watcher, refresh and query in this order, and raises exactly when it has a query before any change |
| Scheduler.Simulation.Run | scripts/evaluate_agent_review_generation_policy.py:66-116 | The whole simulation ends in the state after end_seconds + 1 ticks, or raises at the first tick that does |
| SchedulerSafety.Conservation | scripts/evaluate_agent_review_generation_policy.py:73-113 | Starts = completed + failed + discarded + still in flight, for every run and every latency |
| SchedulerSafety.OneOutcomePerJob | scripts/evaluate_agent_review_generation_policy.py:79-89 | Each started job has exactly one outcome, exactly one latency after its start if that lies inside the run, and is in flight until then |
| SchedulerSafety.StartSpacing | scripts/evaluate_agent_review_generation_policy.py:105-111 | No fingerprint has two jobs in flight, its starts are a latency apart, and a start after a failed one is latency + backoff later, refresh or not |
| SchedulerSafety.NoOutcomeWithoutLatency | scripts/evaluate_agent_review_generation_policy.py:79-81 | With latency at most 0 no job ever ends and nothing is ever stored |
| SchedulerSafety.ZeroLatencyLosesTheStart | scripts/evaluate_agent_review_generation_policy.py:79-111 | With latency 0 and a willing decision at tick 0, every run holds a start, no end and nothing stored |
| SchedulerReplay.StoreIsLogReplay | scripts/evaluate_agent_review_generation_policy.py:82-89 | Store, current fingerprint and remembered baseline are what replaying the log gives, and a fingerprint is stored exactly when the log has a completion of it; failures and stale successes leave all three alone |
| SchedulerReplay.OnlyCurrentCompletes | scripts/evaluate_agent_review_generation_policy.py:82-83 | Every logged start is of the fingerprint current at that moment, and a job that succeeds is completed if its fingerprint is current then and discarded if it is not |
| SchedulerDecisions.DecisionsAreTold | scripts/evaluate_agent_review_generation_policy.py:90-104 | Every decision is about the entry that the calendar makes current at its time and is made on that entry, the fingerprint before its change, whether the log holds a completion of it, whether it is a refresh, and the entry of the last completed job |
| SchedulerDecisions.DecisionsFollowCalendar | scripts/evaluate_agent_review_generation_policy.py:90-104 | Decisions are made exactly at the watcher ticks and refreshes at which the calendar has a current entry, in that order |
| SchedulerDecisions.StartsAreTold | scripts/evaluate_agent_review_generation_policy.py:105-111 | A start names the entry current at its time and is a retry exactly if the watcher makes it after a failure of that fingerprint |
| SchedulerDecisions.OutcomesAreTold | scripts/evaluate_agent_review_generation_policy.py:79-89 | An outcome is that of a job started one latency earlier for the entry current then, and fails exactly for a first attempt at a step that fails first |
| SchedulerDecisions.PolicyRepeatsNothing | scripts/evaluate_agent_review_generation_policy.py:93-113 | Under every policy the watcher never starts a generation for a fingerprint that an earlier row completed |
| SchedulerGuards.GuardsAreTold | scripts/evaluate_agent_review_generation_policy.py:105-113 | A decision to generate is held back exactly when, by the decisions before it, a job for its fingerprint is in flight, the backoff after a failed first attempt is not over, or the attempts since the last refresh that started anew are used up |
| SchedulerGuards.AttemptsAreTold | scripts/evaluate_agent_review_generation_policy.py:105-111 | The starts of the log are exactly the decisions to generate that are not held back, in order, each with the number of attempts since the last refresh that started anew |
| SchedulerQueries.HitsAreLoggedCompletions | scripts/evaluate_agent_review_generation_policy.py:115-116 | Every query is at a calendar time, for the fingerprint that the calendar makes current then, and hits exactly when the log holds a completion of it at or before that time |
| SchedulerQueries.EveryQueryHasARow | scripts/evaluate_agent_review_generation_policy.py:115-116 | Every query time of the calendar inside the run has its query row |
| SchedulerQueries.CompletesExactlyWhen | scripts/evaluate_agent_review_generation_policy.py:66-116 | No tick raises exactly when every query of the calendar has a change at or before it |
| SchedulerReplay.StaysStored | scripts/evaluate_agent_review_generation_policy.py:83-84 | The store only grows |
| SchedulerAttempts.AttemptBound | scripts/evaluate_agent_review_generation_policy.py:103-109 | Starts of a fingerprint never exceed max_attempts × (1 + its refresh resets) |
| SchedulerLiveness.BoundedLiveness | scripts/evaluate_agent_review_generation_policy.py:73-113 | A fresh fingerprint that stays current and wanted from t on is stored by t + 2P + 2L + B - 2, even if its first attempt fails |
| SchedulerLiveness.PoliciesAreLive | systems/backend/app/operations/agent_review_summary_generation_policy.py:259-298 | The real decision procedure meets that assumption for current packets under the always and demand policies, and under the hybrid policy when the changes of that time are material |
| SchedulerSummary.AskedExactly | scripts/evaluate_agent_review_generation_policy.py:90-104 | A step has a first watcher decision exactly when a watcher tick falls while it is current, by the calendar alone |
| SchedulerSummary.SummaryExactlyWhenAsked | scripts/evaluate_agent_review_generation_policy.py:117-123 | The scenario summary is made exactly when every critical step was asked about, and otherwise fails on a missing key |
| SchedulerSummary.FastStepIsMissed | scripts/evaluate_agent_review_generation_policy.py:90-123 | With changes at 0, 1 and 2 and a watcher period of 2, every run fails to summarise the second step |
| SchedulerSummary.SummaryNeedsAll | scripts/evaluate_agent_review_generation_policy.py:117-123 | The summary exists exactly if every critical step has a first decision; it counts all of them, and its other counts never exceed that |
| SchedulerSummary.SummaryCounts | scripts/evaluate_agent_review_generation_policy.py:117-123 | The summary counts exactly the critical steps, those whose first watcher decision was to generate, and those for which it found a stored result |
| SchedulerSummary.WholePeriodIsAsked | scripts/evaluate_agent_review_generation_policy.py:90-92 | A step that stays current for a whole watcher period inside the run is always asked about |
| Harness.FaultInjectingProvider.GenerateJson | scripts/evaluate_agent_workflow_baseline.py:116-129 | A call through the injector raises, returns the malformed object or passes through to the provider, which is called only in the last case |
| HarnessReplies.RepliesAreTold | scripts/evaluate_agent_workflow_baseline.py:116-129 | Without a fault, or with a mismatch, the replies are the provider's own; a timeout raises TimeoutError and a malformed output has neither texts nor a list of roles |
| Harness.RetryLoop | scripts/evaluate_agent_workflow_baseline.py:265-296 | The retry loop leaves the candidate, errors, reason and call count of the attempt specification, also when the check of the reply, the merge or the validator raises, and calls the real provider once per attempt or not at all |
| HarnessReplies.CleanExactly | scripts/evaluate_agent_workflow_baseline.py:340-359 | Nothing is complained about exactly for an object whose title and summary are texts with something besides white space, with three role items, each an object with one of the three role names and such a text as quote |
| HarnessReplies.ComplaintsExactly | scripts/evaluate_agent_workflow_baseline.py:340-359 | Each complaint appears exactly for its own fault, once, title before summary before roles |
| HarnessReplies.SpacesByCodePoint | scripts/evaluate_agent_workflow_baseline.py:343-357 | The white space that stripping removes, by code point |
| HarnessReplies.CheckRaisesExactly | scripts/evaluate_agent_workflow_baseline.py:348-359 | Checking a reply raises exactly when it has three role items and the first bad one has a role that cannot be looked up in a set |
| HarnessReplies.ValidExactly | scripts/evaluate_agent_workflow_baseline.py:274-293 | A reply is valid exactly when it is well formed in that sense, merges, and the merged summary validates without an exception or a complaint |
| HarnessReplies.ReasonOfFailure | scripts/evaluate_agent_workflow_baseline.py:280-296 | With no valid reply the reason is that of the last one: the name of what its check, its merge or the validator raised, or that validation failed |
| HarnessReplies.ReasonOfSuccess | scripts/evaluate_agent_workflow_baseline.py:280-296 | A success keeps the reason of the failure just before it, and has none if it is the first reply |
| Harness.RunArm | scripts/evaluate_agent_workflow_baseline.py:221-337 | One run returns the specified row and leaves the specified cache, traces and call count, or raises what the final validation raises, with the cache as it was |
| Harness.RunSuite | scripts/evaluate_agent_workflow_baseline.py:486-498 | The suite returns one specified row per job in order, over a shared cache that starts empty, or raises exactly when the final validation of some row does |
| HarnessRetry.FirstValidWins | scripts/evaluate_agent_workflow_baseline.py:273-296 | The first contract-valid reply ends the loop and nothing that failed before it is left in candidate or errors |
| HarnessRetry.AllFail | scripts/evaluate_agent_workflow_baseline.py:273-296 | When no reply is valid every attempt is used up and no usable candidate is left |
| HarnessRetry.B3TakesFirstValid | scripts/evaluate_agent_workflow_baseline.py:265-311 | B3 returns the first valid candidate or else the baseline; fallback exactly when all MAX_ATTEMPTS attempts failed; attempts are the index of the first success or MAX_ATTEMPTS |
| HarnessRetry.DirectArmsTakeOneShot | scripts/evaluate_agent_workflow_baseline.py:267-308 | B1 and B2 make one attempt, never fall back or touch the cache, and are accepted exactly when that attempt is valid and not empty |
| HarnessReplies.AskingRunIsTold | scripts/evaluate_agent_workflow_baseline.py:265-337 | Every field of the row, the trace and the cache of a run that asks, told from the replies: it asks until one is valid, at most twice for B3 and once otherwise; a direct arm hands out what it merged even if that does not validate, B3 the baseline |
| HarnessReplies.SilentRunIsTold | scripts/evaluate_agent_workflow_baseline.py:236-263 | A B3 run that does not ask hands out the cached summary of its key, or is blocked for a snapshot mismatch, and changes neither cache nor call count |
| HarnessRetry.FaultsAreContained | scripts/evaluate_agent_workflow_baseline.py:236-250 | Every injected fault ends in a baseline fallback after MAX_ATTEMPTS attempts or in a block after none, without one real provider call |
| HarnessRetry.FaultRowsAddUp | scripts/evaluate_agent_workflow_baseline.py:537-550 | Of the rows of the fault suite all are contained, one in three is blocked and the other two retry to the bound |
| HarnessRetry.RunFaultSuite | scripts/evaluate_agent_workflow_baseline.py:522-550 | The fault suite makes, packet by packet, the full row of a malformed output, a timeout and a mismatch, without one real provider call; it raises exactly when the validator raises over the baseline of some packet |
| HarnessSuite.CacheInvariant | scripts/evaluate_agent_workflow_baseline.py:240-311 | After any number of jobs in any order the cache holds exactly the summaries returned by the accepted B3 jobs, each under its packet's key and valid for it, and every such job returned the one that is held |
| HarnessSuite.ReusedExactlyAfterAccepted | scripts/evaluate_agent_workflow_baseline.py:240-263 | For every job order, a B3 job reuses exactly when an earlier B3 job for its packet was accepted, and then returns that same accepted summary without a call |
| HarnessSuite.FirstAsksLaterReuse | scripts/evaluate_agent_workflow_baseline.py:240-311 | If baselines meet the contract and the empty summary fails it, every B3 job is accepted and only the first one per packet asks the provider |
| HarnessSuite.RaisesExactly | scripts/evaluate_agent_workflow_baseline.py:300-337 | The suite gets through without an exception exactly when no B3 job falls back to a baseline over which the validator raises, if distinct packets have distinct keys |
| HarnessSuite.TracesFollowRows | scripts/evaluate_agent_workflow_baseline.py:313-322 | The trace list is, in order, one trace per B3 row with that row's key, status, attempts, fallback and reason |
| HarnessSuite.CallsAreAttempts | scripts/evaluate_agent_workflow_baseline.py:124-129 | Every call the provider serves in a suite is an attempt in exactly one row |
| HarnessSuite.SuiteBalances | scripts/evaluate_agent_workflow_baseline.py:486-498 | For any job list, reuses + distinct B3 packets = B3 jobs, and the calls of B3 lie between the distinct packets and MAX_ATTEMPTS times them |
| HarnessSuite.ReuseForgetsTheShuffle | scripts/evaluate_agent_workflow_baseline.py:480-498 | For every shuffle, reuse_count = cases × (iterations - 1), and B3 calls the provider at most MAX_ATTEMPTS times per case |
| ReliabilityRows.SummaryRowAccepted | scripts/evaluate_agent_workflow_reliability.py:192-242 | For every summary and every status and reuse flag, given or derived: a given status must be known, only a reuse may be flagged as one, and a fallback needs a reason |
| ReliabilityRows.SummaryRowIsTold | scripts/evaluate_agent_workflow_reliability.py:192-242 | A given status wins over the fallback and that over the reuse, a given flag over the derived one, and only a fallback row gives the reason |
| ReliabilityRows.AcceptedExactly | scripts/eval_support/agent_workflow_stability.py:62-79 | A row is accepted exactly when it meets each of the nine checks, stated on its fields and the six literal statuses |
| ReliabilityRows.FirstFailureRaises | scripts/eval_support/agent_workflow_stability.py:62-79 | The first check that a row fails raises its complaint |
| ReliabilityRows.AggregateAddsUp | scripts/eval_support/agent_workflow_stability.py:121-177 | For any list of accepted rows the fallback reasons add up to the fallbacks, and the six counters to the rows except exactly those that lack the flag of their status |
| ReliabilityRows.ReasonsAreCounted | scripts/eval_support/agent_workflow_stability.py:125-131 | Each non-empty reason is counted once for every fallback row that gives it |
| Paths.SplitJoin | scripts/migrate_docs_to_purpose_folders.py:126-127 | Splitting at slashes undoes joining with slashes |
| Paths.JoinSplit | scripts/migrate_docs_to_purpose_folders.py:126-127 | Joining with slashes undoes splitting at slashes |
| Paths.NormalFormIsCanonical | scripts/migrate_docs_to_purpose_folders.py:126-127 | Two paths normalise to the same text exactly when they denote the same place, and normalising twice is normalising once |
| Paths.UnderMeans | scripts/migrate_docs_to_purpose_folders.py:165 | Resolving a link below a folder applies the link's steps to what the folder denotes |
| Paths.RelPathRoundTrip | scripts/migrate_docs_to_purpose_folders.py:169-171 | Resolving a relative path from its start gives back exactly the target, with or without a leading "./", in any working folder |
| DocLinks.GuardMeans | scripts/migrate_docs_to_purpose_folders.py:166 | The guard stops exactly the links that leave the root, except the one to the parent of the root itself |
| DocLinks.ParentOfRoot | scripts/migrate_docs_to_purpose_folders.py:166-169 | That link still leads to the parent of the root afterwards, unless the working folder is the file-system root |
| DocLinks.RewrittenPathDenotesMovedTarget | scripts/migrate_docs_to_purpose_folders.py:165-171 | The rewritten path, resolved from the new place, is the moved image of what the old path resolved to from the old place, except in that one case |
| DocLinks.SplitsBack | scripts/migrate_docs_to_purpose_folders.py:154-161 | Path and fragment come apart again exactly when the path hides no separator that would cut it short |
| DocLinks.ParentInside | scripts/migrate_docs_to_purpose_folders.py:145-146 | The folder of a place inside the root is that place without its last step |
| DocKept.NeverRewrittenExactly | scripts/migrate_docs_to_purpose_folders.py:151-167 | For every move a target is never rewritten exactly when it is empty, starts with "#", "/", "http://", "https://", "mailto:" or "data:", has nothing before its separator, or leads out of the root to any place but the root's own parent |
| DocRoutes.RewrittenTargetDenotes | scripts/migrate_docs_to_purpose_folders.py:148-172 | The rewritten target leads a reader to the moved image with the same fragment exactly when the target survives: its link does not leave the top, no name on the way down hides a separator, and the way does not open like an external link |
| DocStability.RewrittenIsStable | scripts/migrate_docs_to_purpose_folders.py:148-172 | A target rewritten for its new place is left alone there by a later run exactly when it stays put, a condition on the source names, the moves and the target |
| DocStability.RewritingIsIdempotent | scripts/migrate_docs_to_purpose_folders.py:144-174 | With equal sources and moves∘moves = moves, rewriting twice equals rewriting once exactly when the target is not rewritten or stays put |
| DocStability.RewritingTwiceDiffers | scripts/migrate_docs_to_purpose_folders.py:144-174 | A settled move after which the second pass changes the link again |
| DocLinks.HashInFolderName | scripts/migrate_docs_to_purpose_folders.py:156-169 | A concrete family of moves after which the rewritten link no longer denotes its target |
| DocText.SplitRawRoundTrip | scripts/migrate_docs_to_purpose_folders.py:130-141 | Wrapper, target and title make up the link again exactly unless it is non-empty white space |
| DocText.AngledReadsBack | scripts/migrate_docs_to_purpose_folders.py:135-137 | In angle brackets a replaced target is read back exactly when it has no closing bracket |
| DocText.ReplacedTargetReadsBack | scripts/migrate_docs_to_purpose_folders.py:130-141 | A link with its target replaced is split into the same wrapper, the new target and the same title exactly when the new target closes no bracket, opens none, and has no white space or is all of the text with a new line in it |
| DocPieces.UnparsePieces | scripts/migrate_docs_to_purpose_folders.py:123 | Matching the links of a document and writing the pieces out again loses nothing |
| DocPieces.FixedTextHasFixedLinks | scripts/migrate_docs_to_purpose_folders.py:174 | For any replacement whatsoever, substituting leaves a document as it is exactly when it leaves every link as it is |
| DocPieces.SubstitutionIsIdempotent | scripts/migrate_docs_to_purpose_folders.py:174 | Substituting twice over a document equals substituting once exactly when each single replacement settles at once, if replaced links stay readable as links |
| DocUntouched.UntouchedExactly | scripts/migrate_docs_to_purpose_folders.py:148-172 | Any target at all is left as it is exactly when it is not rewritten, or its path has no detour and leads to a place that is not moved |
| DocRewriting.FitsExactly | scripts/migrate_docs_to_purpose_folders.py:130-172 | A rewritten link is read with the old wrapper and title and the new target exactly when the new target fits, a condition on the names on the way down, the fragment and the title |
| DocRewriting.LinkFollows | scripts/migrate_docs_to_purpose_folders.py:144-174 | A rewritten link has the old wrapper and title and leads to the moved image of its old target exactly when the target fits and survives |
| DocRewriting.StructureKeptExactly | scripts/migrate_docs_to_purpose_folders.py:144-174 | The moved document has the same characters and links in the same order, each link replaced, exactly when no rewritten link has a name with a closing parenthesis on the way down |
| DocRewriting.MovedDocumentKeepsItsLinks | scripts/migrate_docs_to_purpose_folders.py:144-174 | If no rewritten link closes early, each link that is not rewritten stays as it is, and each rewritten one follows the move exactly when its target fits and survives |
| DocKept.KeptLinkStands | scripts/migrate_docs_to_purpose_folders.py:144-174 | Wherever the document moves, a link with such a target stands in it character for character as it did |
| DocKept.KeptDocumentStands | scripts/migrate_docs_to_purpose_folders.py:144-174 | A document with only such links is not changed by any move |
| DocRewriting.DocumentIsUntouched | scripts/migrate_docs_to_purpose_folders.py:144-174 | For any document, a pass over it at its own place changes nothing exactly when each of its links is untouched |
| DocRewriting.DocumentIsIdempotent | scripts/migrate_docs_to_purpose_folders.py:144-174 | With moves∘moves = moves, a second pass over any document changes nothing exactly when each link of the rewritten document is untouched; and, if no rewritten link closes early, exactly when each rewritten link of the old document fits and stays put, or is read as an untouched one |
| DocBreaks.SpaceCutsLink | scripts/migrate_docs_to_purpose_folders.py:130-172 | A move to a name with a space gives a link that is read as a link to the first word, with the rest as its title |
| DocBreaks.ParenthesisEndsLink | scripts/migrate_docs_to_purpose_folders.py:123-174 | A move to a name with a closing parenthesis gives a document whose link ends inside the name |
| DocBreaks.TitleReadAsPath | scripts/migrate_docs_to_purpose_folders.py:130-172 | A family of links that lose their wrapper and title and still lead to the right place, so that both have to be asked for |
| SeedStore.Store.Seed | scripts/seed_gold_recommendations.py:65-131 | One run leaves the specified lists; inserted + replayed + not_recommended is the scenario count, inserted is the growth of the rows, and inserted + replayed the recommended scenarios |
| SeedLineage.SeedingIsTold | scripts/seed_gold_recommendations.py:86-131 | A run takes the scenarios in order, each adding at most the one row that its fixture and recommendation make, field by field, unless one is held for the same product result, action and version, or for the same scenario, product result and version without a recommendation |
| SeedLineage.ToldRunsAgree | scripts/seed_gold_recommendations.py:86-131 | What a run told like this leaves is determined by what it found |
| SeedStore.HistoryIsAppendOnly | scripts/seed_gold_recommendations.py:77-131 | Over any sequence of runs old rows stay as a prefix of both lists and unique keys stay unique |
| SeedStore.AnyEarlierRunIsReplayed | scripts/seed_gold_recommendations.py:86-131 | Repeating any run of the history, however long ago, changes neither list |
| SeedStore.KeysAfter | scripts/seed_gold_recommendations.py:68-131 | After a run the row keys are those before it and those of the recommended scenarios |
| SeedStore.InsertsAllExactly | scripts/seed_gold_recommendations.py:109-131 | inserted never exceeds the recommended scenarios, and equals them exactly when each key is new to the store and to the list before it |
| SeedStore.NewVersionInsertsAll | scripts/seed_gold_recommendations.py:109-131 | A policy version the store has not seen inserts one row per recommended scenario, if scenario ids are distinct and "#" is missing from the equipment ids and times, or from the scenario ids |
| SeedStore.KeysSeparateIds | scripts/seed_gold_recommendations.py:48-54 | Under the same condition on "#" equal store keys mean equal scenario ids |
| SeedStore.HashInEquipmentLosesRow | scripts/seed_gold_recommendations.py:48-54 | With a "#" in an equipment id and in a scenario id two recommended scenarios can end up as one row, at any two times |
| LunaRuns.Prepare | scripts/run_luna_120_stability.py:66-86 | The schedule is the round robin, each input gets runs_per_case runs and the first remainder_runs inputs one more; without inputs it fails |
| LunaRuns.RoundRobin | scripts/run_luna_120_stability.py:66-74 | Run k carries its number; the first runs take the inputs in turn, and every later run is the one a whole round before it with the next iteration number |
| LunaRuns.PairsAreDistinct | scripts/run_luna_120_stability.py:66-74 | No (input, iteration) pair is scheduled twice |
| LunaRuns.InputsAreBalanced | scripts/run_luna_120_stability.py:66-74 | The runs of an input number total // inputs, or one more for the first total % inputs |
| LunaRuns.OutputDir.RunOne | scripts/run_luna_120_stability.py:102-171 | A settled record is returned without executing; otherwise the run is executed once and, unless the process dies, its record saved |
| LunaOutcomes.RecordTells | scripts/run_luna_120_stability.py:142-161 | A record is accepted exactly for a summary without a complaint of either check, without a verdict exactly for one of the four connection errors, and refused otherwise; it keeps exactly those complaints, or that name |
| LunaOutcomes.CommandSaves | scripts/run_luna_120_stability.py:102-171 | A command runs exactly for an index of the schedule that no file settles, saves the record that tells of its attempt unless the process dies, and changes no other file |
| LunaRuns.SettledIsFinal | scripts/run_luna_120_stability.py:121-125 | Over any sequence of interrupted and repeated runs a settled record is never changed and never executed again |
| LunaRuns.FirstSettledWins | scripts/run_luna_120_stability.py:121-125 | An index, also a negative one, is settled exactly when some completed execution was not a transient error, and its record is that of the first such one |
| LunaRuns.RecordsFollowSchedule | scripts/run_luna_120_stability.py:111-171 | Every saved record carries its own scheduled item |
| LunaRuns.NegativeIndexRunsAgain | scripts/run_luna_120_stability.py:108-125 | After a run has settled, its negative index executes it once more and leaves a second record of the same item |
| LunaTallies.TallyCases | scripts/run_luna_120_stability.py:179-189 | The per-case counters hold the valid runs, acceptances and failure tags of exactly that case, and only cases with a valid run have one |
| LunaTallies.Aggregate | scripts/run_luna_120_stability.py:174-204 | The overall figures count the valid, transport and accepted rows and every failure tag; valid + transport = completed |
| LunaOutcomes.ReportTellsHistory | scripts/run_luna_120_stability.py:174-204 | For any command history from an empty disk, the valid runs, overall and of each case, number the indices that some command brought to an end without losing the connection, and the accepted runs those whose first such attempt was clean |
| LunaOutcomes.FailuresTellHistory | scripts/run_luna_120_stability.py:174-204 | Every failure count adds up the complaints, or the name, of the first such attempt of each index |
| LunaTallies.CasesSumToOverall | scripts/run_luna_120_stability.py:179-204 | Per-case runs, acceptances and each failure tag sum to the overall figures |
| Interleave.RunComparison | scripts/compare_agent_review_summary_models.py:219-268 | The comparison is refused exactly for bad models, no packets, no iterations, too many calls, an unknown mode, missing live providers, bad prices or settings, and otherwise makes the specified rows |
| InterleaveRows.RowIsTold | scripts/compare_agent_review_summary_models.py:265-316 | Row s·m + p of n packets and m models carries its own number, iteration s / n + 1, case s mod n with its fingerprint, and the model p places after the one that slot s starts with |
| InterleaveRows.RefusedExactly | scripts/compare_agent_review_summary_models.py:226-253 | What makes models, prices, providers, modes and settings bad, name by name, and the bound of 360 attempts |
| Interleave.EveryTripleOnce | scripts/compare_agent_review_summary_models.py:263-268 | Every (iteration, case, model) triple occurs exactly once and no other occurs, also when packets repeat |
| Interleave.PositionsAreBalanced | scripts/compare_agent_review_summary_models.py:265-268 | Over N slots each of the m models stands at each position floor(N/m) times or once more, and exactly when once more |
| Interleave.OwnGateIsMet | scripts/compare_agent_review_summary_models.py:98-106 | The rows pass the preregistered repeat-count test exactly when the registered count is the number of iterations and no two packets share a fingerprint |
| InterleaveRows.GateAsksForEachOnce | scripts/compare_agent_review_summary_models.py:98-106 | For any rows, the repeat-count test, a set of iterations and a number of rows, passes exactly when every listed model has every listed packet once in each registered iteration and in no other |
| Percentile.NearestRank | scripts/eval_support/agent_workflow_stability.py:201-205 | The result is the least element with at least max(1, ceil(q·n)) elements not above it; it exists exactly for q at most 1 |
| Percentile.PercentileExists | scripts/eval_support/agent_workflow_stability.py:201-205 | Only the empty list has no percentile, and exactly a quantile above one runs off the end of another list |
| Percentile.MonotoneInQuantile | scripts/eval_support/agent_workflow_stability.py:201-205 | A higher quantile never gives a lower value |
| Percentile.ForgetsOrder | experiments/ontology_p0_20260923/oracle.py:9-10 | The order of the list does not matter |

## Left out

* Timestamps are whole seconds and their ISO text is an arbitrary function; probabilities, quantiles and hours are
  exact reals, so the event model's tolerance of 1e-9 is exact equality and rounding to six digits is not modelled.
* RiskRanking.IdsAreUnique: assumes that the timestamp text is injective and free of "#", as ISO text is.
* RiskRanking.PipelineIgnoresOrder: makes the same assumption about the timestamp text.
* The policy model's usage lists and the timeline loader are not part of this model.
* Scheduler.Simulation.Ask: `decide_generation` is also modelled on its own, but `material_change_required`,
  `packet_is_current`, fingerprints and identities are arbitrary, and a decision trace keeps only plan, action,
  reason and eligibility; the reason to regenerate stands for both its texts, with and without an earlier fingerprint.
* Scheduler.Simulation.Advance: the gold label a query row copies is not modelled. A watcher period below 1 is excluded.
* SchedulerSafety.OneOutcomePerJob: needs a latency of at least 1, as do StartSpacing and BoundedLiveness;
  NoOutcomeWithoutLatency says what happens without.
* The sums and ratios that `aggregate` forms over several simulated scenarios would only add easy members.
* Harness.RunArm: the names of arms and faults are datatypes, so the refusal of unknown ones is not modelled, and neither
  are the payload, usage, cost and gold-score fields of a row. The empty object is the empty text.
* Harness.RunSuite: the shuffle is any job list handed in; ReuseForgetsTheShuffle quantifies over all permutations.
* HarnessSuite.FirstAsksLaterReuse: assumes, as the harness does, that distinct packets have distinct summary keys and
  that the baseline of each packet meets the contract and the empty summary does not; ReusedExactlyAfterAccepted needs
  only the distinct keys, as do CacheInvariant and RaisesExactly.
* DocRewriting.MovedDocumentKeepsItsLinks: says nothing about a document in which a rewritten link closes early; its
  structure is then lost, as StructureKeptExactly says.
* DocRewriting.DocumentIsIdempotent: for a link that does not fit, the condition is on the target that is read in its
  place, not on the old one.
* The concrete table of moves, the plain text replacement after the link rewriting and the file operations of the
  migration's `main` are not modelled.
* SeedStore.Store.Seed: fixtures, checksums and the recommendation policy are arbitrary functions; the fixed metadata
  around the two lists is not modelled.
* LunaRuns.OutputDir.RunOne: the checks of registration hashes and the record's timing and transport fields are not
  modelled.
* LunaTallies.Aggregate: the pass rate and the durations, which are rounded quotients and sums, are left out.
* Interleave.RunComparison: scores, usage and cost per row are left out, and so are the gate's other reasons, which are
  independent checks of single fields. Prices are finite numbers, and the parsing of their time is a parameter.
* Percentile.NearestRank: products of a length and a quantile are exact reals, so floating-point rounding is not modelled.
* ReliabilityRows.AggregateAddsUp: the rates and the counters of unchecked fields would only add easy members. The rows
  that the reliability run builds by hand are constants and are not modelled.
