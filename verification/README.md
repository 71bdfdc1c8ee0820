# Verified model of the outreach and ingestion core

This Dafny project models the parts of the repository whose correctness does
not show in any one function: identity resolution and profile merging, link
rewriting, the concurrent ingestion pools, pipeline executions, outreach
sequences, and rank combination. Each module follows one component of the
program, and its main results are statements about every input, every run or
every interleaving.

`dafny verify dfyconfig.toml` checks the whole project.

## Reading guide

| module | component | how it is modelled |
|---|---|---|
| `Basics` | | options, the order of identifiers, small string and arithmetic facts |
| `Matching`, `JaroWinkler`, `SimilarityValues` | string similarity of the resolver | the scan over boolean arrays, proved equal to a function; the greedy matching is the only stable matching of the two strings |
| `Resolver`, `Candidates`, `PairRules` | blocking, scoring, the pair loop | loops over an index and a set of seen pairs, proved against a set of expected candidates; and when a pair is expected, told from the profiles |
| `ProfileStore` | `merge_profiles` | a class over the tables, one statement after the other |
| `MergeRuns` | triage, approval, rejection | runs of transactions over the tables, and a class for the triage loop |
| `LinkRewriter`, `TrackedLinks` | `rewrite_links` and the click that undoes it | a scan that cuts a text into characters and anchors |
| `Orchestrator`, `PoolOutcomes` | the GitHub ingestion pool | a state machine, one step between two awaits |
| `TokenPool` | token pool and request loop | a class for the pool, a state machine for its clients |
| `Budget` | the budget of the LinkedIn client | a state machine, one step between two awaits, and a class for the client used alone |
| `RateLimiter` | its rate limiter | a state machine of callers that sleep and wake |
| `Pipeline` | pipeline executions | a state machine over tracker calls, and a class for the control loop |
| `Outreach`, `OutreachService` | campaigns, messages, tracking, sending | one function on the tables for each transaction, and a class whose methods are proved to compute it |
| `OutreachEffects` | | what each of these transactions does, told from the columns |
| `OutreachSafety`, `SendQuota` | | what every run of these transactions, and every pass of the send worker, keeps |
| `SequenceGaps` | | where sequences stop, repeat a step or go on after an unsubscribe: exact conditions, and runs that get there |
| `PausedCampaigns` | | what a campaign that is not active still sends |
| `StableSort` | Python's `sorted(..., reverse=True)` | ranks and sorted positions |
| `Fusion`, `Discovery` | rank fusion, discovery ranking | loops over a dictionary and over a list in place |

Floating-point numbers are real numbers here. Calls to the network, to mail
providers and to the database server are parameters or choices of the
environment.

## What the proofs found

Where the program does not do what one would expect, the project says exactly
when, and gives a run that gets there.

- **A cancel can block the GitHub pool for ever.** Some run hangs exactly when the
  run has a job tracker and there are more non-blank logins than the queue has
  places, four for each worker (`Orchestrator.HangsExactlyWhen`): after the
  workers stopped, the producer side waits for room in a queue that nobody reads.
- **Only a missing column keeps merged rows at live profiles.** `merge_profiles`
  moves rows to the target it is given even if that was merged away before: a
  committed merge keeps rows at live profiles exactly when the target is live or
  the source owns no row (`MergeRuns.OwnersStayLiveExactlyWhen`). Under
  sql/schema.sql that always holds. `cohesive_individual_profile` has no
  `updated_at` there (lines 515-546), so a merge whose target has no row in that
  table aborts; one whose target has a row has a live target, since a merge takes
  the row away from the profile it deletes. No run leaves a row at a deleted
  profile (`MergeRuns.OwnersStayLive`). With a schema in which the UPDATE of
  app/ingest/bridge/storage.py:722-727 can run, two merges strand a recipient
  (`MergeRuns.StrandedRecipient`).
- **The budget bound fails for a budget that is not positive.** Spending stays
  below the budget plus one profile per worker on every run exactly when that
  bound is positive, since nothing spent is not below zero
  (`Budget.BoundHoldsExactlyWhenPositive`). The bound cannot be lowered by the
  price of one profile (`Budget.OvershootIsReached`).
- **A sequence can stop in silence.** After an accepted message its recipient gets
  the next one or becomes finished exactly when the campaign is live and active
  and either no step is left or the next one is an email and the mailbox is live
  (`SequenceGaps.MovesOnExactlyWhen`). Otherwise nothing ever advances the
  recipient again, whatever is resumed or repaired later, unless the campaign is
  started again (`SequenceGaps.LeftBehindExactlyWhen`). A wait step gets there
  (`SequenceGaps.WaitStepIsReached`), and so does a pause while a message is being
  sent (`SequenceGaps.PausedSendIsReached`).
- **Starting a paused campaign again can repeat its first step.** It does exactly
  when an active recipient it reads already has a message of that step, the step
  is an email and the mailbox is live (`SequenceGaps.RestartRepeatsExactlyWhen`,
  `SequenceGaps.RestartIsReached`); in a campaign started once no step is sent
  twice (`OutreachSafety.StepsGoUp`).
- **Unsubscribing stops one campaign only.** The docstring of
  `process_unsubscribe` says it stops all campaigns; the code stops exactly the
  live recipient of the message (`SequenceGaps.UnsubscribeStopsOne`), so all
  recipients with the address are stopped exactly when the others were before
  (`SequenceGaps.AllStoppedExactlyWhen`, `SequenceGaps.OtherCampaignGoesOn`).
  Messages of other campaigns are withdrawn when their turn to be sent comes, and
  none reaches the address (`OutreachSafety.UnsubscribedForGood`).
- **A mailbox without a reset day is used up for good.** Capacity comes back on a
  later day exactly when the day of the last reset is known
  (`SendQuota.CapacityReturnsExactlyWhen`, `SequenceGaps.UsedUpForGood`,
  `SequenceGaps.UsedUpIsReached`). The column is nullable without a default in
  app/model/mailbox_model.py:33, and nothing sets it from null. sql/schema.sql:653
  declares it NOT NULL with a default, so a database made from that file holds no
  such row; it can occur only in tables made from the models, as
  tests/conftest.py:65 makes them.
- **A campaign that is not active still sends what is scheduled.** The send worker
  does not look at the campaign. Without a start or a resume nothing of the
  campaign is created or handed over in any run exactly when every waiting message
  of it has an address on the unsubscribe list
  (`PausedCampaigns.SendsNothingExactlyWhen`,
  `PausedCampaigns.CancelledSendIsReached`).
- **A cancel of a pipeline can be lost.** It is honoured exactly when the runner is
  cancelling already or will check the signal once more, which it will not when it
  is carrying out a pause, when no runner is active, when the step in progress
  fails, or after the last check (`Pipeline.CancelIsHonouredExactlyWhen`,
  `Pipeline.LostCancelIsReached`).
- **Callers that share the rate limiter exceed the rate.** Each one that slept
  begins a new window when it wakes. In any 60 seconds at most `rate_limit_rpm`
  requests pass for each caller and once again, and no smaller number bounds them
  (`RateLimiter.BoundIsExact`).
- **Rank 61 is the exact threshold of rank fusion.** With k = 60 two ranks of 61
  beat any single occurrence, and two ranks of 62 tie with a single first rank
  (`Fusion.TwiceTheWeight`).

## Model

| member | source | states |
|---|---|---|
| Matching.FindMatches | app/ingest/bridge/resolver.py:578-597 | the scan over the two flag arrays finds the greedy matching, flags exactly its positions and counts its pairs |
| Matching.NextFlag | app/ingest/bridge/resolver.py:606-607 | the inner walk stops at a flagged position inside the second string and skips no flagged one |
| Matching.CountTranspositions | app/ingest/bridge/resolver.py:602-610 | the walk counts the places in which the two matched subsequences differ |
| JaroWinkler.Compute | app/ingest/bridge/resolver.py:569-624 | the whole function, with both early returns and the prefix boost, computes the similarity the lemmas are about |
| SimilarityValues.ZeroExactlyWhen | app/ingest/bridge/resolver.py:578-600 | different strings score zero if and only if no two equal characters stand at one place, or nearer than half the longer string |
| SimilarityValues.RearrangedValue | app/ingest/bridge/resolver.py:602-624 | a rearrangement of n characters inside the window that differs in h places, behind k common characters (at most 4), scores 1 - (10 - k) * h / (60 * n) |
| SimilarityValues.SwappedNeighbours | app/ingest/bridge/resolver.py:602-624 | two different neighbours swapped behind the fourth character score 1 - 1 / (5 * n) |
| SimilarityValues.ExtendedValue | app/ingest/bridge/resolver.py:612-624 | a string of k characters (at most 4 count) against its extension by x scores 1 - (10 - k) * length of x / (30 * whole length) |
| SimilarityValues.LongExtension | app/ingest/bridge/resolver.py:612-624 | behind at least four characters that is 1 - length of x / (5 * whole length) |
| Matching.GreedyIsStable | app/ingest/bridge/resolver.py:588-597 | the scan yields a matching, and no compatible pair prefers each other to what they got |
| Matching.StableMatchingsAgree | app/ingest/bridge/resolver.py:588-597 | a stable matching of (s, t) and one of (t, s) pair the same positions |
| Matching.FlagsSwap | app/ingest/bridge/resolver.py:582-597 | swapping the arguments swaps the two flag arrays |
| JaroWinkler.SimilarityIsSymmetric | app/ingest/bridge/resolver.py:569-624 | the similarity does not depend on the order of its arguments |
| Matching.GreedyIsMaximum | app/ingest/bridge/resolver.py:578-597 | no pairing of equal characters inside the window has more pairs than `matches` |
| Matching.Exchange | app/ingest/bridge/resolver.py:588-597 | any matching can be turned towards the greedy one, one position further, without losing a pair |
| Matching.SameNumberOfFlags | app/ingest/bridge/resolver.py:602-610 | both flag arrays hold the same number of trues, so the walk never reads past the second string |
| JaroWinkler.SimilarityRange | app/ingest/bridge/resolver.py:571-624 | the result lies in [0, 1] and is 1 exactly for equal strings |
| JaroWinkler.EarlyReturnAgrees | app/ingest/bridge/resolver.py:571-572 | for non-empty equal strings the main path gives 1 as the early return does |
| Resolver.MaxWeight | app/ingest/bridge/resolver.py:130 | the score of a pair is the weight of one of its signals and at least that of each |
| Resolver.JudgeIsSymmetric | app/ingest/bridge/resolver.py:309-396 | signals, threshold decision and score of a pair do not depend on which profile comes first |
| Resolver.StrongMatchScore | app/ingest/bridge/resolver.py:312-343 | an email, twitter or HF-to-GitHub match alone gives a score of at least 0.85 |
| Resolver.BuildIndex | app/ingest/bridge/resolver.py:256-287 | the index holds under each key the profiles filed under it, in load order and with repetitions |
| Resolver.AddToBlocks | app/ingest/bridge/resolver.py:258-287 | filing a profile appends it once for each of its keys and touches no other key |
| Resolver.Deduplicate | app/ingest/bridge/resolver.py:296-301 | the first profile of each id, in the order of the list |
| Resolver.FirstOfEachIsDistinct | app/ingest/bridge/resolver.py:296-301 | of one id each, and no profile is lost |
| Resolver.AddBlock | app/ingest/bridge/resolver.py:289-303 | one block of the deduplicated members is added, and none if the list is capped or too small |
| Resolver.NewBlockCovers | app/ingest/bridge/resolver.py:289-303 | that block covers every pair of different members |
| Resolver.BuildBlocks | app/ingest/bridge/resolver.py:254-305 | every block has one uncapped key common to its profiles, and every pair with such a key is in some block |
| PairRules.EmailsAre | app/ingest/bridge/resolver.py:475-482 | the emails of a profile are its two addresses, cleaned, without those of GitHub's no-reply domain |
| PairRules.Views | app/ingest/bridge/resolver.py:485-561 | handle, LinkedIn name, name, place, company and avatar come from the first field that is set |
| PairRules.SignalsAreFound | app/ingest/bridge/resolver.py:309-396 | each of the nine signals is reported if and only if the fields of the pair agree as it demands |
| PairRules.VerdictIs | app/ingest/bridge/resolver.py:21-34 | the verdict on a pair by its strongest signal, with the nine weights and the review threshold as numbers |
| PairRules.KeysAre | app/ingest/bridge/resolver.py:263-287 | the keys under which a profile is filed |
| PairRules.FiledTogetherExactlyWhen | app/ingest/bridge/resolver.py:254-305 | two profiles share an uncapped block if and only if they have a common email, login, twitter handle or LinkedIn address, or a name that at most 50 profiles have |
| PairRules.CandidateExactlyWhen | app/ingest/bridge/resolver.py:98-148 | a pair is a candidate, with a score, if and only if the first profile is the newer one, they are filed together, and the verdict keeps that score |
| PairRules.NamesakesAreFound | app/ingest/bridge/resolver.py:279-282 | profiles of the same name and place are a candidate with at least 0.6, unless more than 50 have the name |
| Candidates.Visit | app/ingest/bridge/resolver.py:121-145 | one pass of the loop body scores the pair unless it was scored before, and keeps candidates, seen pairs and counter in step |
| Candidates.FindCandidates | app/ingest/bridge/resolver.py:111-145 | each comparable pair is scored exactly once, and the candidates are exactly those of the specification |
| Candidates.Run | app/ingest/bridge/resolver.py:98-148 | for any list of distinct profiles the candidates are the pairs that share an uncapped key and score at least 0.4, and `skipped` counts the lower ones |
| Candidates.OrderDoesNotMatter | app/ingest/bridge/resolver.py:111-145 | every permutation of the loaded profiles yields the same candidates |
| Candidates.MembersPermute | app/ingest/bridge/resolver.py:289-294 | the length that decides the cap of a name block does not depend on the load order |
| Candidates.StrongMatchesAreFound | app/ingest/bridge/resolver.py:263-277 | every pair with an email, twitter or HF-to-GitHub match is a candidate for automatic merging: blocking loses none |
| ProfileStore.Store.MergeProfiles | app/ingest/bridge/storage.py:693-765 | the statements of the transaction, in order, change the tables as the row-by-row specification says |
| ProfileStore.Store.MergeSatellites | app/ingest/bridge/storage.py:709-727 | each satellite table loses the source's row when the target has one, else hands it to the target |
| ProfileStore.ProfileStatements | app/ingest/bridge/storage.py:695-707 | copying links, soft-deleting and marking for rebuild amount to one change per profile row |
| ProfileStore.SatelliteStaysUnique | app/ingest/bridge/storage.py:709-727 | a merge keeps at most one satellite row per profile |
| ProfileStore.SatelliteRows | app/ingest/bridge/storage.py:709-727 | no satellite row is left at the source, and rows of other profiles and all data columns are unchanged |
| ProfileStore.SatelliteCount | app/ingest/bridge/storage.py:716-727 | exactly one row goes when both had one, none otherwise, and the target has a row exactly when either had one |
| ProfileStore.ReferencesMove | app/ingest/bridge/storage.py:729-739 | recipients and audit rows are all kept, with those of the source moved to the target |
| ProfileStore.OneMerge | app/ingest/bridge/storage.py:693-765 | uniqueness, counts, absence of the source and untouched profiles, over the whole database |
| ProfileStore.RowsAfterMerge | app/ingest/bridge/storage.py:695-764 | the target keeps the links it has, takes over those it lacks and waits to be rebuilt; the source keeps its links, is deleted and marked as merged into the target |
| ProfileStore.CandidatesAfterMerge | app/ingest/bridge/storage.py:750-757 | the candidate of the pair is merged and resolved to the target, and no other candidate is touched |
| ProfileStore.MergeTwice | app/ingest/bridge/storage.py:693-765 | a second identical merge changes nothing |
| MergeRuns.StepKeepsWellFormed | app/ingest/bridge/resolver.py:400-472 | triage, approval and rejection keep candidates canonical, `merged_into` going down, and deleted equivalent to merged |
| MergeRuns.MergeGoesDown | app/ingest/bridge/storage.py:741-748 | a merge of a canonical pair points from a larger id to a smaller one and marks exactly the source deleted |
| MergeRuns.NoCycle | app/ingest/bridge/resolver.py:470-472 | following `merged_into` never returns to its start |
| MergeRuns.ChainEnds | app/ingest/bridge/resolver.py:470-472 | the chain ends at a live profile within as many hops as there are smaller ids |
| MergeRuns.OneLiveEnd | app/ingest/bridge/storage.py:741-748 | a chain reaches only one live profile |
| MergeRuns.EveryProfileHasOneLiveEnd | app/ingest/bridge/resolver.py:442-472 | after any run of triage, approvals and rejections each profile leads to exactly one live profile |
| MergeRuns.DecisionsAreFinal | app/ingest/bridge/resolver.py:412-426 | a merged or rejected candidate stays so however often its pair is found again, and a pair never gets a second row |
| MergeRuns.TriageRecords | app/ingest/bridge/resolver.py:400-464 | a triage leaves a row of the pair with the better score and the status that score and outcome demand, and touches no other row |
| MergeRuns.NothingIsRecorded | app/ingest/bridge/resolver.py:412-416 | a settled candidate, or one that could not be recorded, changes nothing |
| MergeRuns.DecisionIsRecorded | app/api/v1/controller/ingest_identity_api.py:134-205 | an approval merges the pair or leaves it approved when the merge aborts, a rejection rejects it, and other rows stay |
| MergeRuns.ApprovalStands | app/api/v1/controller/ingest_identity_api.py:146-166 | approving never touches a settled candidate |
| MergeRuns.RunKeepsReferences | app/ingest/bridge/storage.py:729-739 | no run loses a recipient or an audit row |
| MergeRuns.MergedOwners | app/ingest/bridge/storage.py:709-739 | after a merge exactly the source owns nothing any more, and the target owns what either did |
| MergeRuns.OwnersStayLiveExactlyWhen | app/ingest/bridge/storage.py:709-748 | an event keeps all rows at live profiles exactly when it merges nothing, or its target is live, or its source owns no row |
| MergeRuns.SchemaKeepsOwnersLive | sql/schema.sql:515-546 | where a committed merge needs a cohesive row of its target, every event keeps all rows at live profiles |
| MergeRuns.OwnersStayLive | app/ingest/bridge/storage.py:708-748 | under that schema no run of synchronisation, enrolment, triage, approvals and rejections leaves a row at a deleted profile |
| MergeRuns.StrandedRecipient | app/ingest/bridge/storage.py:722-748 | where the UPDATE can run, two automatic merges in a triangle leave a recipient at a deleted profile; the shipped schema refuses both |
| MergeRuns.Triager.TriageCandidate | app/ingest/bridge/resolver.py:400-464 | records, merges or downgrades one candidate and counts it in one counter, unless it raises |
| MergeRuns.Triager.TriageAll | app/ingest/bridge/resolver.py:150-160 | the triage loop runs the specification over all candidates, and the four counters, errors included, grow by their number |
| LinkRewriter.RewriteLinks | app/outreach/link_rewriter.py:21-43 | the scan computes the rewritten text and the link map of the specification |
| LinkRewriter.ReplaceNext | app/outreach/link_rewriter.py:24-40 | one match, or one plain character, is replaced or copied, with the map entry it adds |
| TrackedLinks.AnchorAhead | app/outreach/link_rewriter.py:40 | a text that begins with `href="` in any letter case, a url without a quote and a quote begins with an anchor |
| TrackedLinks.AnchorsOnlyThere | app/outreach/link_rewriter.py:40 | and only such a text does |
| TrackedLinks.FirstAnchorIsTracked | app/outreach/link_rewriter.py:21-43 | text before the first anchor is copied, the anchor is left alone or written as base, `/c/`, tracking id and the first link id, and the rest is rewritten with the ids that follow |
| TrackedLinks.NoAnchorNoChange | app/outreach/link_rewriter.py:40-43 | a text without an anchor is not changed |
| TrackedLinks.EveryLinkIsTracked | app/outreach/link_rewriter.py:24-38 | every anchor of the output is the one it was, or has the tracked url of its own link id |
| TrackedLinks.ClickLeadsBack | app/api/v1/controller/email_tracking_api.py:47-62 | the click route reads the tracking id and the link id back from a rewritten link, and the id resolves to the original url |
| LinkRewriter.RenderCut | app/outreach/link_rewriter.py:40-41 | cutting a text into characters and anchors loses nothing |
| LinkRewriter.Rescan | app/outreach/link_rewriter.py:40-41 | replacing urls by quote-free ones moves no match: a second scan finds the same anchors |
| LinkRewriter.RewrittenCut | app/outreach/link_rewriter.py:24-41 | scanning the output finds exactly the rewritten anchors |
| LinkRewriter.RewritingTwice | app/outreach/link_rewriter.py:31-33 | rewriting the output again changes nothing and yields an empty map |
| LinkRewriter.RoundTrip | app/outreach/link_rewriter.py:35-38 | undoing the rewriting through the map gives the original text, up to the letter case of `href` on rewritten anchors |
| LinkRewriter.LinkMapKeys | app/outreach/link_rewriter.py:35-36 | the map holds exactly the ids that were drawn |
| LinkRewriter.ClicksResolve | app/service/email_tracking_service.py:77-81 | every rewritten link resolves to its original url on click |
| Orchestrator.NoLoginIsLostOrRepeated | app/ingest/gh/orchestrator.py:56-122 | on every interleaving, even under pause and cancel, unproduced, queued, in-flight and done logins are together exactly the input |
| PoolOutcomes.CountersAreOutcomes | app/ingest/gh/orchestrator.py:83-92 | each counter grows by the number of items that ended in its way |
| PoolOutcomes.RealIs | app/ingest/gh/orchestrator.py:81-86 | logins are stripped, and blank ones are left out |
| PoolOutcomes.FirstComeFirstServed | app/ingest/gh/orchestrator.py:56-90 | on every interleaving the workers are handed the non-blank logins in the order in which they were given |
| PoolOutcomes.PauseStopsTheWorkers | app/ingest/gh/orchestrator.py:109-122 | while the signal is pause, at most one more login is handed out for each worker that is waiting for one |
| PoolOutcomes.CheckFollowsSignal | app/ingest/gh/orchestrator.py:103-122 | a worker that looks at the signal stops for a cancel, waits out a pause, and else goes on |
| Orchestrator.NothingIsLeft | app/ingest/gh/orchestrator.py:67-76 | without a cancel each worker takes one sentinel, all non-blank logins are processed, and succeeded, failed and skipped add up to processed |
| Orchestrator.OnlyCancelCanBlock | app/ingest/gh/orchestrator.py:67-70 | a run that cannot go on has returned, waits for an operator to lift a pause, or was cancelled with a full queue |
| Orchestrator.NoDeadlock | app/ingest/gh/orchestrator.py:56-122 | without a cancel no interleaving deadlocks |
| Orchestrator.HangNeedsLogins | app/ingest/gh/orchestrator.py:57-76 | a hung pool was given a tracker and more non-blank logins than the queue has places |
| Orchestrator.EnoughLoginsHang | app/ingest/gh/orchestrator.py:56-122 | with a tracker and that many logins a run hangs: the workers take one login each, the queue fills up, and a cancel stops them |
| Orchestrator.HangsExactlyWhen | app/ingest/gh/orchestrator.py:56-122 | some run hangs if and only if there is a tracker and more than four non-blank logins for each worker |
| Orchestrator.CancelCanHang | app/ingest/gh/orchestrator.py:67-70 | the smallest case: one worker and five logins |
| Orchestrator.StepKeepsValid | app/ingest/gh/orchestrator.py:78-122 | sentinels stay behind logins, and sentinels and counters stay accounted for at every step |
| Orchestrator.RunsAreBounded | app/ingest/gh/orchestrator.py:89-122 | each step of the pool uses up work, so every run is finite |
| Orchestrator.StepBound | app/ingest/gh/orchestrator.py:56-122 | an explicit bound on the number of steps in the number of logins and workers |
| TokenPool.Pool.TryAcquire | app/ingest/gh/token_pool.py:46-64 | one pass hands out an available token with the most remaining requests, else waits, with a deadline exactly when some token sleeps |
| TokenPool.Pool.Release | app/ingest/gh/token_pool.py:66-78 | the token is free again, with the limits the response carried |
| TokenPool.AnswerIs | app/ingest/gh/token_pool.py:46-64 | a token is handed out if and only if a free one has requests left or has been reset; else the wait ends at the first reset of a free token, but not within half a second |
| TokenPool.ReplyDecides | app/ingest/gh/client.py:157-219 | a reply ends the request, swaps the token or rests first, and the freed token takes over the limits of the response |
| TokenPool.ReleaseWakesAll | app/ingest/gh/token_pool.py:66-78 | a release wakes every waiting client and disturbs no other |
| TokenPool.FailingMakesAllAttempts | app/ingest/gh/client.py:157-219 | a request with nothing but transient failures makes exactly `max_retries` + 1 attempts |
| TokenPool.StepKeepsValid | app/ingest/gh/client.py:142-226 | tokens are held by at most one request, acquires and releases stay paired, and no wake-up is lost, at every step |
| TokenPool.TokensAreExclusive | app/ingest/gh/client.py:147-174 | no token is held by two requests, and each acquire on a handled path is released once |
| TokenPool.ParkedTokenIsNotHandedOut | app/ingest/gh/token_pool.py:26-31 | a token in use, parked, or worse than another available one is not handed out |
| TokenPool.ParkedUntilReset | app/ingest/gh/token_pool.py:26-52 | a parked token is untouched by every run that ends before its reset time |
| TokenPool.SomebodyWakesTheWaiter | app/ingest/gh/token_pool.py:54-78 | whoever waits without a deadline is woken by the next release, and some request is in flight |
| TokenPool.BackoffsAreBounded | app/ingest/gh/client.py:157-226 | one request backs off at most `max_retries` times |
| TokenPool.SomeAnswer | app/ingest/gh/token_pool.py:48-64 | a pass of the loop in `acquire` always has an answer |
| TokenPool.NoDeadlock | app/ingest/gh/token_pool.py:46-78 | while some request is not finished a client can make a step, at once or when time has passed |
| Budget.StepKeepsBounded | app/ingest/ln/client.py:52-79 | spending plus requests in flight stays below the budget plus one profile per worker |
| Budget.OvershootIsBounded | app/ingest/ln/orchestrator.py:64-101 | on every interleaving nothing is spent, or less than the budget plus one profile per worker |
| Budget.ExhaustedForGood | app/ingest/ln/client.py:43-54 | once the budget is exhausted no idle worker starts a request in any later run, and only what is in flight is still spent |
| Budget.BoundHoldsExactlyWhenPositive | app/ingest/ln/client.py:43-54 | the bound holds on every run if and only if it is positive |
| Budget.OvershootIsReached | app/ingest/ln/client.py:47-79 | some run overshoots by the price of all workers but one |
| Budget.Client.FetchProfile | app/ingest/ln/client.py:47-103 | an exhausted budget refuses, a response costs one profile whatever its status, and no response costs nothing |
| Budget.Client.RateLimit | app/ingest/ln/client.py:105-122 | used alone, at most `rate_limit_rpm` requests since the window began, windows begin at least 60 seconds apart, and the call does what one caller does in the shared limiter |
| Budget.AloneIsTwoSteps | app/ingest/ln/client.py:52-79 | a request made alone spends what the steps of the state machine spend |
| RateLimiter.StepUsesWindow | app/ingest/ln/client.py:105-122 | within 60 seconds each caller begins at most one window, and no other step adds one |
| RateLimiter.RateIsBounded | app/ingest/ln/client.py:105-122 | on every interleaving at most (callers + 1) * `rate_limit_rpm` requests pass in any 60 seconds |
| RateLimiter.RateIsReached | app/ingest/ln/client.py:105-122 | some run lets that many pass |
| RateLimiter.BoundIsExact | app/ingest/ln/client.py:105-122 | a number bounds the requests of any 60 seconds of any run if and only if it is at least that |
| Pipeline.NextKeepsFitting | app/ingest/pipeline/runner.py:76-120 | each tracker call of a runner leaves the rows as its position in the loop demands |
| Pipeline.OnlyAPauseClears | app/ingest/pipeline/runner.py:91-97 | a runner touches the signal only to take back a pause, and is then paused and gone |
| Pipeline.RequestKeepsValid | app/ingest/pipeline/tracker.py:300-371 | pause, cancel and guarded resume keep the invariant; a resume starts a runner only from a paused execution |
| Pipeline.NextPendingIsFirst | app/ingest/pipeline/tracker.py:373-384 | the next pending step is the first one not completed |
| Pipeline.AnyRun | app/api/v1/controller/ingest_pipeline_api.py:299-370 | after any pauses, resumes, cancels and failures: executed steps are a prefix without repetition, at most one runner is active, statuses have an allowed shape with `completed_steps` completed ones, and completed means all |
| Pipeline.FinalStaysFinal | app/ingest/pipeline/tracker.py:300-371 | a completed, failed or cancelled execution never changes again |
| Pipeline.ActiveRunnerCanAdvance | app/ingest/pipeline/runner.py:76-120 | the active runner is the last one and can always make its next call |
| Pipeline.CancelIsHonouredExactlyWhen | app/ingest/pipeline/runner.py:76-120 | a cancel with no later signal, whatever resumes follow, ends the execution cancelled if and only if its runner was cancelling or had a check of the signal ahead |
| Pipeline.ComesToRest | app/ingest/pipeline/runner.py:76-120 | from every state the active runner comes to an end, for any outcomes of the steps |
| Pipeline.LostCancelIsReached | app/ingest/pipeline/runner.py:91-97 | a run in which a cancel arrives while a pause is carried out; no continuation ends cancelled |
| Pipeline.Execution.CheckSignal | app/ingest/pipeline/runner.py:80-97 | the check before a step cancels the rest, pauses, or goes on |
| Pipeline.Execution.ControlLoop | app/ingest/pipeline/runner.py:76-119 | the loop, for any signals and step outcomes, ends as the specification says, with rows and executed steps to match |
| Pipeline.Execution.CancelFrom | app/ingest/pipeline/runner.py:83-89 | cancel marks exactly the steps not yet run and the execution |
| Pipeline.Execution.ExecuteStep | app/ingest/pipeline/runner.py:102-116 | a step ends completed and counted, or failed together with the execution |
| Pipeline.Execution.MarkStepCompleted | app/ingest/pipeline/tracker.py:176-209 | the step is completed and `completed_steps` grows by one |
| Pipeline.Execution.ResumeExecution | app/ingest/pipeline/tracker.py:358-371 | resumes exactly a paused execution and clears its signal |
| Outreach.NextStep | app/db/repository/campaign_step_repository.py:47-58 | the step of least order above the current one, if any |
| Outreach.LoopKeeps | app/service/email_sending_service.py:62-135 | each message of a batch still waits when its turn comes, so a batch keeps what each delivery keeps |
| Outreach.SendOneKeepsOthers | app/service/email_sending_service.py:62-135 | delivering one message leaves the other messages alone |
| OutreachService.Service.Transition | app/service/campaign_service.py:200-215 | a campaign moves only along the allowed transitions, with the two error cases |
| OutreachService.Service.StartCampaign | app/service/campaign_service.py:165-180 | the first step is scheduled for each active recipient read |
| OutreachService.Service.ScheduleMessage | app/service/campaign_service.py:352-415 | a message and the recipient's step order, or nothing for another kind of step or a missing mailbox |
| OutreachService.Service.AdvanceRecipient | app/service/campaign_service.py:444-459 | schedules the next step of an active campaign, or finishes the recipient |
| OutreachService.Service.CancelScheduled | app/db/repository/email_message_repository.py:44-56 | withdraws exactly the waiting messages of the recipient and returns their number |
| OutreachService.Service.RecordReply | app/service/email_tracking_service.py:102-150 | stops the recipient when the campaign asks for it |
| OutreachService.Service.RecordBounce | app/service/email_tracking_service.py:152-195 | marks the message bounced and stops the recipient when the campaign asks for it |
| OutreachService.Service.ProcessUnsubscribe | app/service/email_tracking_service.py:197-236 | adds the address to the list and stops the recipient |
| OutreachService.Service.CheckCapacity | app/service/mailbox_service.py:238-255 | resets a counter of an earlier day and returns what is left under the daily and warm-up limits |
| OutreachService.Service.HandleFailure | app/service/email_sending_service.py:281-300 | counts the retry and reschedules with doubled backoff, or gives up |
| OutreachService.Service.HandOver | app/service/email_sending_service.py:90-135 | a message is sent, retried or failed, with the counters and the next step |
| OutreachService.Service.Deliver | app/service/email_sending_service.py:62-135 | one pass of the queue loop, in all its branches, the exception handler included |
| OutreachService.Service.ProcessSendQueue | app/service/email_sending_service.py:52-137 | the loop delivers the batch in order and returns the number of sent events it created |
| OutreachEffects.ReplyStopsExactlyWhen | app/service/email_tracking_service.py:102-150 | a reply stops exactly the live recipient of the message, if the campaign is live and asks for it, withdraws its waiting messages, and changes nothing else |
| OutreachEffects.BounceStopsExactlyWhen | app/service/email_tracking_service.py:152-195 | a bounce marks the message, and stops its live recipient under the same condition |
| OutreachEffects.UnsubscribeListsAndStops | app/service/email_tracking_service.py:197-236 | an unsubscribe lists the address and stops the live recipient of the message |
| OutreachEffects.CapacityIs | app/service/mailbox_service.py:238-255 | the remaining capacity counts the messages that fit under the daily limit and, in warm-up, the warm-up limit |
| OutreachEffects.BatchRespectsLimits | app/service/email_sending_service.py:62-135 | no pass of the worker sends through a mailbox beyond these limits |
| OutreachEffects.SendOneIs | app/service/email_sending_service.py:62-135 | what becomes of a message in its turn, and of its attempts, the sent events and the daily counter |
| OutreachEffects.RejectedAgainAndAgain | app/service/email_sending_service.py:281-300 | a message that is rejected each time waits ten minutes, then each time twice as long, and fails with rejection number `max_retries`, or at once |
| OutreachEffects.AdvanceSchedules | app/service/campaign_service.py:444-459 | the message written for the next step, column by column, or the end of the sequence |
| OutreachEffects.StartWrites | app/service/campaign_service.py:172-178 | a start writes one message of its first step for each active recipient it reads, column by column, and no other |
| OutreachEffects.StartMoves | app/service/campaign_service.py:172-178 | it sets the step of exactly these recipients |
| OutreachEffects.StartActivates | app/service/campaign_service.py:165-170 | it makes its campaign active and touches no other |
| OutreachEffects.PageHoldsEveryone | app/service/campaign_service.py:175 | a campaign of at most 10000 recipients has all of them read |
| OutreachEffects.TransitionIs | app/service/campaign_service.py:46-59 | a campaign moves if and only if it is live and the move is one of the seven |
| OutreachEffects.CampaignEditsAre | app/service/campaign_service.py:134-161 | editing and deleting change their own columns of a live campaign |
| OutreachEffects.EndedForGood | app/service/campaign_service.py:46-59 | a completed or cancelled campaign stays so in every run |
| OutreachEffects.RemoveIs | app/service/campaign_service.py:309-316 | a removed recipient is marked and has nothing waiting |
| OutreachEffects.NobodyIsEnrolledTwice | app/service/campaign_service.py:280-282 | in every run the live recipients of a campaign have different addresses |
| OutreachSafety.EventKeepsGood | app/service/campaign_service.py:165-178 | every transaction keeps: waiting messages belong to open recipients, messages of a campaign started once are in step order, retries are within bounds |
| OutreachSafety.EventLeaves | app/service/email_sending_service.py:62-135 | only a start of its own campaign can wake a recipient without waiting messages, and not even that wakes a stopped one |
| OutreachSafety.QuietForGood | app/service/email_sending_service.py:62-135 | the same for whole runs |
| OutreachSafety.StoppedForGood | app/service/email_tracking_service.py:140-148 | once replied, bounced, unsubscribed or removed, a recipient gets no new message and none is handed over in any later run |
| OutreachSafety.CancelKeepsGood | app/db/repository/email_message_repository.py:44-56 | after the bulk cancel the recipient has no waiting message |
| OutreachSafety.UnsubscribedForGood | app/service/email_sending_service.py:83-88 | once on the list, an address is never written to in any campaign |
| OutreachSafety.StepsGoUp | app/service/campaign_service.py:352-459 | in a campaign started once the step orders of a recipient's messages strictly increase and at most one waits |
| SequenceGaps.StartSchedulesAll | app/service/campaign_service.py:172-178 | a start schedules the first step for every active recipient it reads |
| SequenceGaps.NewAreFirstSteps | app/service/campaign_service.py:172-178 | a start creates nothing but messages of its first step for active recipients it reads |
| SequenceGaps.RestartRepeatsExactlyWhen | app/service/campaign_service.py:165-178 | a start creates a second message of a step for a recipient if and only if it goes ahead, its first step is an email from a live mailbox, and some active recipient it reads has a message of it |
| SequenceGaps.RestartIsReached | app/service/campaign_service.py:165-178 | creating, starting, pausing and starting again gets there |
| OutreachSafety.SentIsTheLastOne | app/service/campaign_service.py:444-454 | in a campaign started once a recipient has no other waiting message when one is sent |
| OutreachSafety.RetriedIsWithinRetries | app/service/email_sending_service.py:281-300 | a failed attempt keeps the attempt and backoff bounds |
| OutreachSafety.AttemptsAreBounded | app/service/email_sending_service.py:281-300 | at most max(1, `max_retries`) attempts and 5 * (2^`max_retries` - 2) minutes of backoff per message |
| SequenceGaps.MovesOnExactlyWhen | app/service/campaign_service.py:444-459 | an accepted message brings its recipient a next message or the end if and only if the campaign is live and active and no step is left, or the next one is an email from a live mailbox |
| SequenceGaps.LeftBehindExactlyWhen | app/service/campaign_service.py:352-459 | an accepted message leaves its recipient behind in every later run if and only if that condition fails, the recipient is not finished and no other message of it waits |
| SequenceGaps.StartedOnceLeavesBehind | app/service/campaign_service.py:352-459 | in a campaign started once no other message waits, so the first two conditions decide |
| SequenceGaps.WaitStepIsReached | app/service/campaign_service.py:359-360 | a run in which a wait step leaves the recipient of an active campaign behind |
| SequenceGaps.PausedSendIsReached | app/service/campaign_service.py:446-448 | a run in which a pause and a resume leave it behind before an email step |
| SequenceGaps.UnsubscribeStopsOne | app/service/email_tracking_service.py:228-234 | an unsubscribe stops exactly the live recipient of its message and touches no other row or message |
| SequenceGaps.AllStoppedExactlyWhen | app/service/email_tracking_service.py:202-236 | all recipients with the address are stopped afterwards if and only if the others were before |
| SequenceGaps.OtherCampaignGoesOn | app/service/email_tracking_service.py:202-236 | a run in which the address is active and scheduled in another campaign after its unsubscribe |
| SequenceGaps.UsedUpForGood | app/service/mailbox_service.py:244-255 | a mailbox without a reset day that has used up its limit sends nothing in any later run unless its row is edited |
| SequenceGaps.UsedUpIsReached | app/model/mailbox_model.py:33 | a run that puts such a mailbox with a limit of one and sends one message: it sends nothing in any later run |
| PausedCampaigns.RunHushes | app/db/repository/email_message_repository.py:26-42 | a campaign that is not active, all of whose waiting messages have listed addresses, stays so and sends nothing in every run without a start or resume of it |
| PausedCampaigns.WaitingIsSent | app/db/repository/email_message_repository.py:26-42 | any waiting message to an address not listed is sent by some run of two events, whatever its campaign |
| PausedCampaigns.SendsNothingExactlyWhen | app/service/email_sending_service.py:52-137 | a campaign that is not active sends nothing in every run without a start or resume if and only if all its waiting messages have listed addresses |
| PausedCampaigns.CancelledSendIsReached | app/service/campaign_service.py:194-198 | a run that starts and cancels a campaign and then sends its message |
| SendQuota.BatchKeepsQuota | app/service/mailbox_service.py:238-263 | over any batch a mailbox sends at most what it had left, and its counter grows by what it sent |
| SendQuota.BatchAgrees | app/service/email_sending_service.py:104-126 | messages turned sent, sent events and the total increase of `sends_today` are the same number |
| SendQuota.AttemptAccounts | app/service/email_sending_service.py:101-128 | one attempt counts once for its mailbox when accepted, and not otherwise |
| SendQuota.CapacityReturnsExactlyWhen | app/service/mailbox_service.py:244-255 | a used-up mailbox can send again on some day if and only if its last reset day is known |
| StableSort.OrderIsStable | app/service/search/fusion.py:43 | the sorted list holds every position once, by descending key, equal keys in their order |
| StableSort.RankOrder | app/ingest/gh/discover.py:223-230 | a smaller rank means earlier, and no two positions share one |
| StableSort.CountAheadIs | app/ingest/gh/discover.py:223-230 | a rank is the number of positions with a greater key, or an equal one earlier |
| StableSort.SameOrder | app/ingest/gh/discover.py:223-230 | keys that compare alike are sorted alike |
| Fusion.ReciprocalRankFusion | app/service/search/fusion.py:14-44 | each id of the lists once, by descending sum of 1 / (k + rank), with the ranks and scores of the first two lists |
| Fusion.ReadList | app/service/search/fusion.py:30-41 | the inner loop keeps every entry equal to what has been read so far |
| Fusion.ListOrderDoesNotMatter | app/service/search/fusion.py:29-33 | a permutation of the lists changes neither ids nor scores |
| Fusion.LeadIsWorth | app/service/search/fusion.py:33 | a lead of d occurrences at a rank is worth at least d times its weight |
| Fusion.DominatorComesFirst | app/service/search/fusion.py:27-44 | an id at least as good in every list and better in one comes first |
| Fusion.RanksDecide | app/service/search/fusion.py:30-33 | in a list without repeats that means: ranked at least as well wherever the other is ranked |
| Fusion.ScoreByRanks | app/service/search/fusion.py:33 | with one rank in each list the score is the sum of 1 / (k + rank) |
| Fusion.FirstTwoAreKept | app/service/search/fusion.py:35-41 | ranks and scores of the first two lists are kept, zero where the id does not occur |
| Fusion.TwiceTheWeight | app/service/search/fusion.py:33 | twice the weight of rank k + 1 exceeds that of rank 1, and twice that of rank k + 2 equals it |
| Fusion.TwoListsBeatOne | app/service/search/fusion.py:16-33 | an id at rank k + 1 or better in two lists comes before any id that occurs once |
| Discovery.RankAndScore | app/ingest/gh/discover.py:217-239 | ranks, scores and final order of the list in place are those of the specification |
| Discovery.RankFollowers | app/ingest/gh/discover.py:223-226 | each user's rank is its index in the list sorted by followers |
| Discovery.RankStars | app/ingest/gh/discover.py:227-230 | each user's rank is its index in the list sorted by stars |
| Discovery.ComputeScores | app/ingest/gh/discover.py:232-236 | each user's score is the weighted sum of its two normalised ranks |
| Discovery.ScoredIs | app/ingest/gh/discover.py:223-236 | ranks are the numbers of users ahead on each axis, and the score is the alpha-weighted sum of one less their shares |
| Discovery.RanksArePermutations | app/ingest/gh/discover.py:223-230 | both rank fields take each value from 0 to n - 1 exactly once |
| Discovery.OrderIgnoresScale | app/ingest/gh/discover.py:217-239 | strictly increasing changes of followers and stars leave scores and order unchanged |
| Discovery.AheadOnBothComesEarlier | app/ingest/gh/discover.py:232-239 | for 0 <= alpha <= 1 a user strictly ahead on both axes comes strictly earlier |
| Discovery.AlphaOneIsFollowers | app/ingest/gh/discover.py:232-239 | with alpha = 1 the list is the list sorted by followers |

## Assumptions

- Each database transaction, and each call of the pipeline tracker, is one
  step; the same holds for what a coroutine does between two awaits.
- Tracker and storage writes of the ingestion pools and pipelines do not raise. A
  merge that raises has not committed. No exception is raised after a mail provider
  accepted a message, and no day ends during one pass of the send worker.
- Link ids, and ids of new rows, are fresh where a property says so.
- A merge may abort at any point, as a violated constraint would make it; its
  transaction then changes nothing.

## Left out

- The regular expressions and Unicode normalisation of the resolver are uninterpreted functions, and blocking by LinkedIn url, website or avatar is not claimed to be complete: the LinkedIn block key differs from the normaliser used for scoring, and the other two have no block.
- Rounding of floating-point scores, ranks and budgets.
- UNIQUE usernames, which can abort a merge: such a merge is one of the aborted merges of `MergeRuns`. Timestamps, and soft-deleted merge candidates.
- Concurrent transactions that interleave, such as a reply recorded while a batch is being sent, or a merge between two steps of the synchronisation of its source.
- ProfileStore.Store.MergeProfiles: tables are maps of the class, so row locking and the order in which the server applies a statement to rows are not captured.
- Discovery.RankAndScore: the users are records in an array, so two list entries that are the same object are not captured.
- Orchestrator, TokenPool and Budget: the interleaved coroutines are state machines instead of loops. The interleaved model of the budget leaves out the rate limiter, which has a model of its own, and the semaphore, which only delays a request; all leave out exceptions that no handler names, which leave a token of the GitHub pool in use.
- The Hugging Face orchestrator and discovery are near copies of the GitHub ones.
- Pipeline.AnyRun: says nothing about runs with crashes, after which `mark_stale_running_as_paused` can pause an execution in the middle of a step.
- Pipeline: the check that another full pipeline is running, the data handed from step to step, and the parameter `resume_from_step`, which no caller passes.
- Outreach: send windows and delays, templates, opens, link tracking pixels and campaign statistics. A batch is any list of distinct waiting messages, which covers every due date, order and lock.
- OutreachService.Service.ScheduleMessage: without the rendered subject and body and the computed send time.
- OutreachService.Service.RecordReply: without the event row, the time of the reply and the campaign counter.
- OutreachService.Service.RecordBounce: without the event row, the time of the bounce and the campaign counter.
- OutreachService.Service.ProcessUnsubscribe: without the event row, the reason and the campaign counter.
- OutreachService.Service.HandleFailure: without the event row of the final failure.
- Budget.Client.FetchProfile: for a client used by one caller at a time; what sharing does to the budget is in the state machine.
- Budget.Client.RateLimit: for one caller at a time; callers that share it are in `RateLimiter`.
- OutreachSafety.StepsGoUp: claimed for a campaign started once with a fixed step list, because a campaign started again from paused can repeat its first step.
- OutreachSafety.AttemptsAreBounded: `max_retries` is one number for all messages of a run, because nothing in the program sets it per message.
- LinkedIn search, embedding, profile ranking by logarithms, billing, authentication, settings and the plain create, read, update and delete services.
