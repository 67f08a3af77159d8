# Bidflock: a verified model

Bidflock is a real-time bidding system. Most of it moves data between Redis, Kafka, gRPC and
ClickHouse; underneath are a few stateful algorithms whose promises must hold for every
interleaving and every history. This project models those algorithms in Dafny and proves the
promises. `dafny verify dfyconfig.toml` checks everything.

## How it is built

- **Two layers.** Code that works step by step is a `class` or a `method` with loops
  (`Auction`, `Budget`, `Bidding`, `Scoring`, `Pacing`, `Limiter`, `CampaignCatalog`, `BatchWriter`,
  `Percentiles`, `Traffic`). Where several goroutines or services interleave, a state machine has one
  action per atomic Redis command, lock section, clock reading or local step (`Ledger`, `Ring`, `Limiter`,
  `BatchProtocol`, `Traffic`; "Left out" names the readings that are merged with a command). Both layers share the functions that say what a command does, and
  `ProcessBidRequest` is proved to be one particular run of the concurrent ledger. `Spending` runs ledger
  and hourly ring together, and `EndToEnd` feeds the ledger from the campaign service's event log.
- **Runs.** A run is any sequence of actions; an action that is not enabled changes nothing. A theorem
  about all sequences is a theorem about all interleavings of any number of participants.
- **Redis.** Databases are maps; a key is visible up to its deadline and absent after it, whether or
  not it has been reclaimed. Each Redis command and each Lua script is one atomic step.
- **Contracts.** What a method or theorem promises is said in terms of the request, the event, the candidates or
  the stored keys, not only by the functions that the code shares; each module names the few predicates its
  contracts speak of.
- **Numbers.** Money and rates are exact reals. Clocks are integer milliseconds that never go back;
  hours have fixed length.

| file | content |
|---|---|
| `Ledger.dfy`, `LedgerTheorems.dfy` | concurrent bid requests, syncs, deletions and expiry over the budget keys |
| `EndToEnd.dfy`, `Spending.dfy` | the ledger fed by the campaign service, and the ledger together with the hourly ring |
| `Budget.dfy`, `BudgetStore.dfy`, `Pacing.dfy`, `Ring.dfy`, `Limiter.dfy` | the budget service: commands, pacing, hourly ring, frequency cap |
| `Bidding.dfy`, `Auction.dfy`, `Scoring.dfy` | one bid request from end to end |
| `CampaignCatalog.dfy`, `Replication.dfy` | the campaign store, its event log and the replicas that fold it |
| `BatchWriter.dfy`, `BatchProtocol.dfy` | the ClickHouse batch writer, alone and under concurrency |
| `Percentiles.dfy`, `Traffic.dfy` | the simulator's counters and latency percentiles |
| `Redis.dfy`, `Models.dfy`, `Counting.dfy`, `Wrappers.dfy` | shared definitions |

## Where the code differs from what it says

- `GetMultiplier` and `getPacingInfo` call each other without end as soon as the budget key exists
  (internal/budget/pacing.go:27 and 97). `Pacing.CallsNeverReturn` states this exactly. The rest of the
  model uses the form that README.md:670-686 describes: the multiplier as a function of the two rates.
- Pacing is meant to throttle more as money is spent. A deduction that uses the budget to the last cent makes
  the target rate zero, which takes the throttle off (`Pacing.DeductionNeverRaisesMultiplier`).
- The 25-hour expiry of the frequency key never removes an impression of the last 24 hours, except
  when an older deadline passes between a recorder's ZADD and its EXPIRE (`Limiter.AgreesIffNothingLost`,
  `Limiter.OnlyHalfDoneRecordersLose`).
- The hourly ring can show a previous day's spend: a bucket whose EXPIRE is skipped, fails or comes too late is
  still alive when its hour begins again (`Ring.StalledRecorderLeaksYesterday`). `Ring.ExactIffNothingMisfiled` gives
  the exact condition: the reads are right throughout a run if and only if no hour begins over a live bucket and
  no increment arrives when its bucket already stands for another hour, or has lapsed.
- A request that answers "no bid" may have been charged (`LedgerTheorems.NoBidCanBeCharged`): exactly when its
  client gave up on the deduct call and the script took the price, in either order (`LedgerTheorems.NoBidButCharged`).
  Only the one-sided bound of `LedgerTheorems.ServedWithinDeducted` holds, with a non-negative floor, which nothing
  in the code checks.
- First-price auctions are supported but not truthful: some report beats the true value exactly when the value
  exceeds the floor and every eligible rival (`Auction.FirstPriceRewardsShading`).
- `CreateAd` ignores a failed campaign update and publishes the event all the same, and `publishEvent`
  swallows publication errors. `Replication.StepConsistent` says exactly which of these part store and replicas.
- `Close` stops the timer, and its own `flushAll` arms it again; it does not wait for spawned flushes, so
  rows appended before it can be dropped (`BatchProtocol.CloseMayDropRows`): exactly those whose insert failed or
  is still under way when it disconnects (`BatchProtocol.CloseSends`, `BatchProtocol.CloseKeepsRows`).
- The comment on `RunAuction` says every candidate already has its budget approved; the code filters, and so does the model.

## Model

| member | source | states |
|---|---|---|
| Auction.Filter | internal/bidding/auction.go:20-25 | the loop keeps, in order, exactly the candidates with approved budget and a bid at or above the floor |
| Auction.SortSlice | internal/bidding/auction.go:30-33 | the in-place sort yields a descending permutation and promises nothing about ties |
| Auction.PriceHead | internal/bidding/auction.go:35-52 | the price is written into the head only; the other slots stay |
| Auction.RunAuction | internal/bidding/auction.go:19-55 | the result is one that some tie-break allows, no winner exactly when nobody is eligible |
| Auction.EligibleCount | internal/bidding/auction.go:20-25 | filtering keeps each admitted candidate with its multiplicity and nothing else |
| Auction.RankIsOrderStatistic | internal/bidding/auction.go:30-33 | place i of any ranking holds the (i+1)-th highest bid, counted without sorting |
| Auction.RankingsAgree | internal/bidding/auction.go:30-33 | all sorted permutations show the same bids place by place |
| Auction.EligibleInOrder | internal/bidding/auction.go:20-25 | filtering keeps the order of the candidates |
| Auction.OutcomeMeaning | internal/bidding/auction.go:20-54 | if and only if, in the candidates' own fields: there is no bid exactly when no approved candidate bids the floor or more; otherwise any highest such bidder may win, at his own bid (type 1), or at the second-highest such bid or the floor if alone (type 2) |
| Auction.BidAtFloorWins | internal/bidding/auction.go:22-52 | a lone approved bid exactly at the floor wins and pays it |
| Auction.OtherTypesPayPreset | internal/bidding/auction.go:35-52 | any other auction type pays the winner's preset price, at least the floor |
| Auction.OutcomeCharacterised | internal/bidding/auction.go:20-54 | if and only if: a result is possible exactly when it names a highest eligible bidder (any one on a tie) at the second order statistic, the floor for a lone bidder, or his own bid at first price |
| Auction.OrderIndependence | internal/bidding/auction.go:20-54 | no-bid flag, winning bid and price are the same for every order of the candidates and every tie-break |
| Auction.AddingNeverLowersPrice | internal/bidding/auction.go:37-52 | one more candidate never lowers the price of an auction that already had a bid |
| Auction.PriceBounds | internal/bidding/auction.go:37-52 | floor <= price <= winning bid, and the winner is an approved candidate |
| Auction.WinOrLose | internal/bidding/auction.go:35-52 | winning takes a bid of at least the best rival and the floor and costs exactly that at second price, the own bid at first; losing means a bid of at most that, or a refused budget |
| Auction.TruthfulBiddingIsDominant | internal/bidding/auction.go:19-54 | in second-price mode the true value does at least as well as any other report against all rivals, floors, orders and ties, and gains max(0, value - max(best rival, floor)) |
| Auction.FirstPriceGain | internal/bidding/auction.go:45-52 | at first price a report above the reserve gains exactly what it leaves off the value, and no report gains more than value - reserve |
| Auction.FirstPriceRewardsShading | internal/bidding/auction.go:45-46 | if and only if: at first price the true value gains nothing, and some other report gains something exactly when the value exceeds the floor and every eligible rival |
| Scoring.ScoringService.ScoreAds | internal/scoring/service.go:35-75 | the nested loop scores the ads of the cached campaigns in order and skips campaigns that are not cached |
| Scoring.ScoredExactly | internal/scoring/service.go:38-71 | an ad is scored if and only if its campaign was requested and cached and lists the ad; with its two rates, the largest bid within earnings and ceiling, and rate times bid as quality |
| Scoring.ScoredOnce | internal/scoring/service.go:38-71 | a campaign requested once has each ad scored as often as it lists it, so it does not compete against itself |
| Scoring.ScoresInOrder | internal/scoring/service.go:38-71 | scores come in the order of the requested campaigns |
| Scoring.AdsInOrder | internal/scoring/service.go:45-71 | and of the ads within each campaign, one per ad |
| Scoring.ScoreBounds | internal/scoring/service.go:54-59 | the bid is positive and the largest that exceeds neither expected earnings nor a set ceiling |
| Scoring.ScoringService.ScoreAd | internal/scoring/service.go:46-68 | one ad: both rates, the largest bid within earnings per mille and a set ceiling, and its quality |
| Scoring.ScoringService.SyncCampaign | internal/scoring/service.go:78-103 | afterwards the entry equals the event's campaign field by field, or is gone after a deletion; no other entry moves |
| Ledger.BalanceFalls | internal/budget/service.go:25-34 | without opening or deletion in between, a balance falls by exactly what was deducted |
| Ledger.EpochBalance | internal/budget/service.go:25-34 | within an epoch the balance is the opening budget minus the deductions since |
| Ledger.ScriptKeepsInv | internal/budget/service.go:25-34 | the script step keeps store, history and accounts in agreement and no key overdrawn, also when it creates an absent key |
| Ledger.StepKeepsInv | internal/bidding/service.go:113-156 | every step of every participant keeps the ledger invariant |
| Ledger.RunKeepsInv | internal/budget/service.go:53-147 | the invariant holds after every run |
| LedgerTheorems.NoOverspend | internal/budget/service.go:25-73 | in every run a key is present exactly while an epoch is open, holds the opening budget minus all deductions since, and in every epoch, open or past, deductions stay within the opening budget |
| LedgerTheorems.BudgetsAreAnnounced | internal/budget/service.go:53-73 | every non-zero opening budget is a DailyBudget announced for that campaign |
| LedgerTheorems.ResyncKeepsLiveKeys | internal/budget/service.go:59-70 | Exists and SetNX, interleaved in any way and repeated, never alter a live key |
| LedgerTheorems.Conservation | internal/bidding/service.go:145-199 | deductions are exactly served charges plus charges not served; and exactly hourly increments plus charges not counted |
| LedgerTheorems.ServedWithinDeducted | internal/bidding/service.go:145-199 | served price/1000 never exceeds deductions, with equality when every deduction was answered to a waiting client |
| LedgerTheorems.ServedBids | internal/bidding/service.go:113-199 | floor <= price <= paced bid <= raw bid <= ceiling; the paced bid is 0.3, 0.7 or all of the raw bid by the rates of its check; campaign and ad come from what the request read; the bid was charged |
| LedgerTheorems.ChecksFollowHistory | internal/budget/service.go:76-104 | if and only if, over every run: a check approves exactly when it did not fail, the cap was not reached and the history left a live key holding the raw bid; approved bids are paced by the documented bands, refused ones are not |
| LedgerTheorems.WinnerWasChecked | internal/bidding/service.go:129-151 | the winner is one of the candidates that passed CheckBudget, paced by the rates of its check, at floor <= price <= paced bid <= raw bid |
| LedgerTheorems.RefusalNeedsCompetition | internal/bidding/service.go:113-156 | a checked winner whose key stayed can be refused only if others deducted more than 0.999 of its raw bid in between |
| LedgerTheorems.RunStands | internal/bidding/service.go:145-156 | in every run a request is charged exactly when its script took the price; a client that gave up has no bid, and a no-bid without refusal gave up |
| LedgerTheorems.NoBidButCharged | internal/bidding/service.go:145-156 | if and only if, over every run: a request ends without a bid and charged exactly when its client gave up waiting and its script took the price, in either order |
| LedgerTheorems.NoBidCanBeCharged | internal/bidding/service.go:153-156 | the input that shows it: a reachable run in which a request ends without a bid, charged |
| EndToEnd.FedIsSound | internal/campaign/service.go:166-183 | what the ledger assumes of budgets and base bids follows from campaign validation, when its steps are fed by the campaign event log |
| EndToEnd.SpendWithinPublishedBudget | internal/budget/service.go:53-73 | in every such run the deductions of every epoch stay within a daily budget that was published for that campaign |
| EndToEnd.HandlingIsLedgerSteps | internal/budget/service.go:137-148 | handling an event, run alone, is the ledger's Delete, or its Exists and SetNX with the event's campaign and daily budget; a live key ends it |
| EndToEnd.CacheHoldsLatest | internal/scoring/service.go:78-103 | after any delivery a cached configuration is the latest delivered version of its campaign, field by field |
| EndToEnd.BidsFollowLatest | internal/scoring/service.go:54-59 | every score is for an ad of that latest version and bids the most its base bid, rate and ceiling allow |
| EndToEnd.ServedBidsWerePublished | internal/bidding/service.go:180-199 | in every run fed by the campaign service a served bid is for an ad of a published version of its campaign and within that version's ceiling |
| Spending.Projects | internal/budget/service.go:107-130 | a joint run of ledger and ring is a run of each |
| Spending.DeductionsReachTheRing | internal/budget/service.go:107-130 | in every joint run all deductions are what the hourly buckets were told plus what they missed or have not been told yet |
| Spending.PacingSeesTheLedger | internal/budget/pacing.go:78-86 | when nothing was misfiled, the recent spend pacing reads is all deductions less the uncounted, the older hours and a lapsed third hour |
| Budget.BudgetService.SyncCampaign | internal/budget/service.go:53-73 | an absent key then holds exactly the event's daily budget for 26 hours; a live key and all other keys are unchanged |
| Budget.BudgetService.HandleKafkaRecord | internal/budget/service.go:137-148 | after a deletion event the key is absent, after any other the campaign is synced; all other keys are unchanged |
| Budget.BudgetService.CheckBudget | internal/budget/service.go:76-104 | allowed if and only if the key can be read and holds at least the bid and five impressions in 24 hours are not reached; anonymous users and failing cap checks are not capped; every reason, the remaining budget, the multiplier from three buckets, and which set is pruned |
| Budget.BudgetService.RunDeductScript | internal/budget/service.go:25-34 | returns 1 if and only if the balance covers the amount, and then takes exactly that amount, keeping a live key's deadline; no other key moves |
| Budget.BudgetService.DeductBudget | internal/budget/service.go:107-130 | success exactly when the script runs and the balance covers the amount; the bucket of the hour grows by the amount and lives two hours, under any failure of the later commands; nothing changed after failure |
| Budget.ReplayKeepsLiveKeys | internal/budget/service.go:59-70 | re-delivered create and update events never alter a live key |
| Bidding.SMembers | internal/bidding/service.go:228-230 | the active identifiers, each once, in any order |
| Bidding.BiddingService.SyncCampaignIDs | internal/bidding/service.go:213-226 | afterwards the event's campaign is in the active set exactly when the event carries it as active; no other campaign moves |
| Bidding.BiddingService.GetActiveCampaignIDs | internal/bidding/service.go:228-230 | the active set, nothing exactly if it is empty or cannot be read |
| Bidding.BiddingService.CheckScore | internal/bidding/service.go:114-136 | approved if and only if the check did not fail, the user's cap is not reached and the key holds the raw bid; an approved candidate bids the raw bid times the multiplier of what the database holds, a refused one the raw bid; the ledger's check step carries the same |
| Bidding.BiddingService.CheckCandidates | internal/bidding/service.go:111-137 | the loop is a sequence of ledger checks and yields the ledger's candidates |
| Bidding.BiddingService.Award | internal/bidding/service.go:139-143 | the auction is the ledger's clearing step on the checked candidates |
| Bidding.BiddingService.Settle | internal/bidding/service.go:145-199 | deduction and answer are ledger steps; a bid is charged price/1000 and recorded |
| Bidding.BiddingService.BidOnScores | internal/bidding/service.go:111-199 | checks, auction at the first impression's floor, deduction and answer for given scores |
| Bidding.BiddingService.ProcessBidRequest | internal/bidding/service.go:60-200 | all ads of the active, cached campaigns are checked against the database and auctioned at the first impression's floor; the answer is a bid if and only if there is a winner, the script runs, the key covers price/1000 and the reply arrives, with its fields; the exact change of both stores; which no-bid reason; and run alone all this is one run of the concurrent ledger that begins with the request's own floor, type, active set and cache |
| Ring.RunKeepsInv | internal/budget/service.go:123-127 | in every run, a bucket holds the sum of the increments since it was created, and nothing is logged for an hour not yet begun |
| Ring.StepExact | internal/budget/service.go:123-127 | per step, if and only if: from exact reads, a tick, increment or expiry keeps them exact exactly when it does not misfile |
| Ring.ExactIffNothingMisfiled | internal/budget/pacing.go:78-86 | if and only if, over every run with any delays and failed commands: at every point each campaign's bucket of this hour and the last shows exactly that hour's increments (and the third exactly those or nothing), exactly when no tick enters an hour whose bucket is still alive and no increment is late |
| Ring.AmountsIffNothingMisfiled | internal/budget/pacing.go:78-86 | the same in amounts: with positive amounts the sums are right throughout if and only if nothing is misfiled |
| Ring.PacingReadsSpend | internal/budget/pacing.go:78-86 | after a clean run each of the three reads is what the log says was spent; the third while its bucket lives |
| Ring.PromptIsClean | internal/budget/service.go:123-127 | recorders that increment by the next hour and renew, without failure, within 22 hours never misfile |
| Ring.RecordingIsThreeSteps | internal/budget/service.go:123-127 | DeductBudget's clock reading and two commands are three steps of the ring |
| Ring.StalledRecorderLeaksYesterday | internal/budget/service.go:126-127 | the input that shows it: without the renewal a bucket shows yesterday's spend a day later |
| Pacing.PacingController.GetPacingInfo | internal/budget/pacing.go:66-106 | absent key gives nil; otherwise spend rate from three buckets, target rate from the minutes left, multiplier and daily spend |
| Pacing.PacingController.GetMultiplier | internal/budget/pacing.go:26-52 | 0.3, 0.7 or 1.0 by the three buckets, the remaining budget and the minutes left; 1.0 when there is no key |
| Pacing.MultiplierBands | internal/budget/pacing.go:37-51 | 0.3, 0.7 and 1.0 exactly in the documented bands of the target rate |
| Pacing.MultiplierInBand | internal/budget/pacing.go:32-51 | the same without division for every pair of rates, also when nothing or less remains |
| Pacing.MultiplierOfDatabase | internal/budget/pacing.go:78-94 | the bands in what the database holds: spend of three buckets times minutes left against 216 and 189 times the remaining budget |
| Pacing.RemainingHoursPositive | internal/budget/pacing.go:88-92 | the remaining hours are the minutes to midnight and never zero |
| Pacing.RecordingRaisesRecentSpend | internal/budget/service.go:123-127 | a recorded deduction raises the three-hour sum by exactly its amount |
| Pacing.DeductionNeverRaisesMultiplier | internal/budget/pacing.go:32-51 | if and only if: a deduction does not raise the multiplier exactly when budget remains or the campaign was not throttled |
| Pacing.SpendRateFollowsLog | internal/budget/pacing.go:78-86 | in any run that misfiles nothing, the sum behind the spend rate is what the increment log says for this hour, the last, and the third while alive |
| Pacing.CallsNeverReturn | internal/budget/pacing.go:26-106 | as written, the calls return exactly when the key is absent; otherwise no stack is deep enough |
| Limiter.FrequencyLimiter.IsCapped | internal/budget/limiter.go:32-47 | capped exactly with five or more impressions of the last 24 hours; prunes only what is older, in this key only, and keeps its deadline; an error before or after the prune |
| Limiter.FrequencyLimiter.RecordImpression | internal/budget/limiter.go:50-58 | adds the member now and lets the key live 25 hours, this key only; what is left after either command fails |
| Limiter.AgreesIffNothingLost | internal/budget/limiter.go:32-58 | the key agrees with the full history at every point of a run if and only if no tick expires it within a window of the last impression |
| Limiter.OnlyHalfDoneRecordersLose | internal/budget/limiter.go:56-57 | such a tick needs a recorder still between ZADD and EXPIRE |
| Limiter.QuickRecordersLoseNothing | internal/budget/limiter.go:50-58 | recorders that finish within one clock reading never lose anything |
| Limiter.CountedMembers | internal/budget/limiter.go:38-42 | what a check counts lies between the impressions of the last 24 hours and those since its window started, whatever ran between prune and count |
| Limiter.CappedByHistory | internal/budget/limiter.go:32-47 | capped if the unpruned history has at least five different impressions in the last 24 hours, only if it has five since the check's window started; exactly then while the clock stands |
| Limiter.RecordingIsTwoSteps | internal/budget/limiter.go:50-58 | RecordImpression is two steps of the key |
| Limiter.CheckingIsThreeSteps | internal/budget/limiter.go:32-47 | IsCapped is clock reading, prune and count |
| Limiter.FrequencyBound | internal/budget/limiter.go:32-58 | with at most k checked, unrecorded requests no 24-hour window holds more than 4 + k impressions, with prunes, counts, impressions and ticks interleaved in any way |
| Limiter.SerialRequestsKeepTheCap | internal/budget/limiter.go:12-15 | one request at a time never exceeds five in any 24 hours |
| CampaignCatalog.ValidationNamesTheRule | internal/campaign/service.go:166-183 | a campaign is accepted if and only if it has name, advertiser, positive budget and base bid and an end in the future; a refusal names a rule it breaks |
| CampaignCatalog.CampaignService.CreateCampaign | internal/campaign/service.go:55-68 | succeeds exactly for an acceptable campaign and a working store; stores the request under its new id, a given status kept and an empty one made draft; announces that very campaign; an error changes nothing |
| CampaignCatalog.CampaignService.UpdateCampaign | internal/campaign/service.go:74-84 | succeeds exactly for an acceptable, stored campaign and a working store; stores and announces the request under the id; an error changes nothing |
| CampaignCatalog.CampaignService.DeleteCampaign | internal/campaign/service.go:86-92 | succeeds exactly for a stored campaign and a working store; removes only it and announces the deletion |
| CampaignCatalog.CampaignService.CreateAd | internal/campaign/service.go:103-123 | when it succeeds; stores the ad, links it and announces the linked campaign, even when the campaign update fails |
| Replication.Confluence | internal/bidding/service.go:213-226 | deliveries that keep each campaign's order give the same active set and cache |
| Replication.ReplayIsHarmless | internal/scoring/service.go:78-103 | consuming any suffix of the consumed log again changes nothing |
| Replication.StoredConsistent | internal/campaign/service.go:63-66 | a stored campaign whose event is lost splits replicas and store exactly when their view of it changed |
| Replication.StepConsistent | internal/campaign/service.go:55-123 | a request keeps replicas and store together if and only if it neither loses an event a replica needed nor announces an ad whose link was lost |
| Replication.Convergence | internal/campaign/service.go:55-123 | after requests that split nothing and any delivery in per-campaign order, the active set is exactly the stored active campaigns and every cache entry equals its stored campaign field by field |
| Replication.PublishedCampaignsAreValid | internal/campaign/service.go:166-183 | every stored or published campaign has positive budget and base bid |
| Replication.CachedBidsArePositive | internal/scoring/service.go:87-102 | hence every cached base bid is positive |
| BatchWriter.BatchWriter.Append | internal/consumer/writer.go:71-80 | the row goes to the end of its own buffer only; a flush is asked for exactly at the threshold |
| BatchWriter.BatchWriter.InsertBatch | internal/consumer/writer.go:116-127 | inserts all rows or none |
| BatchWriter.BatchWriter.Flush | internal/consumer/writer.go:96-114 | empties one buffer; its rows are inserted or gone |
| BatchWriter.BatchWriter.FlushAll | internal/consumer/writer.go:82-94 | run alone, moves every buffer into its table and arms the timer |
| BatchWriter.BatchWriter.Close | internal/consumer/writer.go:130-134 | flushes all, disconnects, and leaves the timer armed |
| BatchProtocol.StepKeepsInv | internal/consumer/writer.go:71-134 | every step of every goroutine keeps history, bound and sweep invariants |
| BatchProtocol.NothingLostOrDuplicated | internal/consumer/writer.go:71-127 | taken batches in lock order followed by the buffer are exactly the appends; every row is buffered, in flight, sent or dropped, exactly one of these |
| BatchProtocol.OutcomesAreFinal | internal/consumer/writer.go:109-113 | a taken batch keeps its rows, and its outcome never changes |
| BatchProtocol.BufferBound | internal/consumer/writer.go:71-80 | a buffer is below the threshold plus the threshold flushes still to come, so a full one has a flush on its way |
| BatchProtocol.TimerStaysQuiet | internal/consumer/writer.go:82-94 | after a timer flush has started or Close been called, no timer flush starts until a flush of all tables has finished |
| BatchProtocol.CloseTakesEverything | internal/consumer/writer.go:82-92 | after Close every row appended before its table listing has left the buffers, in order |
| BatchProtocol.OutcomesWhileConnected | internal/consumer/writer.go:96-114 | until a disconnect a batch is in flight exactly while a goroutine inserts it, and dropped exactly when its own insert failed |
| BatchProtocol.CloseSends | internal/consumer/writer.go:130-134 | if and only if: after Close disconnects, whatever follows, a batch is sent exactly when it was taken before, its insert had not failed and it was not in flight at that moment |
| BatchProtocol.CloseKeepsRows | internal/consumer/writer.go:82-134 | if and only if: all rows of a table appended before Close listed the tables end up sent exactly when, at the disconnect, no insert of their batches has failed and none is in flight |
| BatchProtocol.CloseMayDropRows | internal/consumer/writer.go:130-134 | a row appended before Close can be dropped by the disconnect, and the timer stays armed |
| Percentiles.Reporter.Load | internal/simulator/reporter.go:91-96 | copies the counters and totals them |
| Percentiles.Reporter.Percentiles | internal/simulator/reporter.go:90-117 | zeros without data; otherwise each value is twice the first bucket whose running share reaches its target, and all three are found |
| Percentiles.PercentileIsOrderStatistic | internal/simulator/reporter.go:101-116 | that bucket is the bucket of the smallest sorted latency whose rank reaches the target |
| Percentiles.PercentileValue | internal/simulator/reporter.go:101-116 | every returned value is, to the even millisecond below, the smallest sorted latency whose rank reaches 0.50, 0.95 or 0.99; 98 for 100 ms and more |
| Percentiles.PercentilesOrdered | internal/simulator/reporter.go:101-116 | p50 <= p95 <= p99 |
| Traffic.TrafficController.SendRequest | internal/simulator/traffic.go:108-134 | run alone, a request moves each of its counters once |
| Traffic.CountersBalance | internal/simulator/traffic.go:108-134 | requests are bids, no-bids, errors and in-flight, each counter the senders with that outcome; buckets are the histogram of the latencies filed |
| Traffic.ScanIsHistogram | internal/simulator/reporter.go:91-96 | counters loaded one by one beside the senders are the exact histogram of some of the filed latencies, among them all filed before the scan began |
| Traffic.ReportedPercentiles | internal/simulator/reporter.go:90-117 | the percentiles computed from such a scan are order statistics of the latencies it saw |

## Left out

- gRPC stubs and codec, HTTP handlers, Kafka client, Mongo and ClickHouse drivers, metrics, logging and the `cmd/` mains: input, output and wiring; only per-key log order and atomic store commands are kept.
- Floating-point rounding, NaN and Lua number formatting: arithmetic is exact.
- Timeouts as real time: a call that times out is one that fails at an arbitrary moment.
- `internal/scoring/predictor.go` and `feature.go`: predicted rates are arbitrary functions with values strictly between zero and one.
- Campaign requests that race on the same campaign: store write and publication are one step in `CampaignCatalog`, though either may fail.
- Advertiser and ad listing, reads, and ad updates and deletions: they publish nothing.
- `CreatedAt`, `UpdatedAt` and the scoring rules on day parting: no modelled decision reads them.
- `NewBatchWriter` and the four `Write` wrappers: they only name the table a row goes to.
- Publication of bid results and no-bid results to Kafka: fire and forget, nothing waits for it.
- `ProcessBidRequest` requires at least one impression, as the HTTP handler does before calling it (internal/bidding/handler.go:43).
- AmountsIffNothingMisfiled: in sums, the third hour needs increments that are less than a day late, because a later one can match the lapsed spend of that hour by coincidence; `Ring.ExactIffNothingMisfiled` looks at the increments themselves and needs no such condition, nor positive amounts.
- GetPacingInfo and GetMultiplier model the form README.md:670-686 documents, because as written the two never return once the budget key exists (`Pacing.CallsNeverReturn`).
- Failing reads in pacing: a bucket that cannot be read counts as zero, a budget key that cannot be read as absent; `Pacing` reads without failures.
- RecordImpression in the interleaved model reads its clock and runs ZADD at one clock reading (`Limiter.Add`); the three steps of a check are separate.
- FrequencyBound: about runs in which the key loses nothing, which `Limiter.AgreesIffNothingLost` characterises; impressions are counted by different identifiers, since the sorted set cannot tell a repeated identifier apart.
- RefusalNeedsCompetition: the frequency cap and the pacing rates of a check are arbitrary inputs of the ledger; `ProcessBidRequest` supplies the real ones.
- `DeductBudget` in the ledger has two store steps, script and increment; the read of the remaining budget is in `Budget`, the clock reading and the renewal in `Ring` and `Spending`.
- A Send that fails after ClickHouse stored the rows counts as dropped in `BatchProtocol`.
- Simulator request, user and event generation, traffic shapes, per-second results and file output: random data and formatting.
