# AccountOS ledger and rules, modelled and proved

AccountOS records inflows on customer accounts, lets rules react to them, and keeps the money in treasury
buckets: append-only CREDIT/DEBIT logs from which settlements pay out to banks or other buckets. This project
models the parts that decide where money goes and proves what holds in every run of them.

The database is modelled as tables (maps and sequences). One transaction, one statement outside a transaction or one
outcome of an external call is one atomic step. Code that reads in one statement and writes in a later one is a request
that remembers what it read, and a run is any sequence of steps, so requests, job deliveries, retries and crashes
interleave freely. A step that is refused has rolled back. Theorems are about all runs from the empty tables unless
they say otherwise. Where an invariant fails under interleaving, there is a theorem that says exactly when it holds and
a concrete run from the empty tables in which it fails. Beside the steps, classes hold the same tables as mutable
fields; their methods follow the services line by line for one undisturbed request and are proved to be runs of the
steps.

| module | what it covers |
|---|---|
| `BucketLedger`, `Treasury` | ledger rows, the two balance readers, the treasury steps and runs |
| `CacheRefinement`, `Solvency`, `SettlementProtocol`, `Conservation`, `Idempotency`, `BucketClosing` | theorems about treasury runs |
| `TreasuryStore` | the treasury services over mutable tables, with the replay loop |
| `RuleEngine`, `Split` | conditions, matching, the evaluation loop, percentage splits |
| `RuleSets`, `RuleStore` | rule and identity requests access by access; ARCHIVED rules |
| `RuleBounds`, `KycReview`, `RuleSetRuns` | the 100% bound, KYC staleness, runs that break them |
| `AccountLedger`, `InflowWorker`, `InflowSafety`, `InflowStore`, `InflowRuns`, `EventIds` | the inflow ledger and the webhook worker protocol |
| `Release`, `ReleaseSafety`, `ReleaseOutcomes`, `RetryJob` | RELEASE_FUNDS: attempts, the retry job, what every step keeps, how attempts end |
| `Pipeline`, `PipelineLinks`, `PipelineMeaning`, `PipelineSafety`, `PipelineProgress`, `AllocationBound`, `PipelineRuns` | worker, rule tables and releases composed into one machine, from webhook to treasury |
| `Lifecycle` | account status under every writer |
| `CsvExport` | the CSV export and a reader for section 2 of RFC 4180 |

Fields called history in the comments (`Entry.origin`, `Settlement.phase`, `LedgerEntry.writer` and `seen`,
`Rule.reenabled`, `Execution.task` and `credited`) are not columns; they record who did what so that theorems can speak
about it.
The bucket key (businessId, bucketRef) stands for the bucket's generated id, which `Release` keeps separately because
allocation references use its first eight characters. `Pipeline` gives an account one key where the code has its id,
its accountRef and its account number, all unique.

Where the code and its documentation or comments disagree, the model follows the code:

- technical-docs/TREASURY_BUILD.md:344 says reserved funds cannot be transferred. `transferBetweenBuckets` compares
  only with the ledger balance, so they can, and a settlement can then overdraw the bucket (`Solvency.TransferCanOverdraw`).
  The exact condition for solvency is `Solvency.SolvencyOverRuns`.
- src/treasury/settlement.service.ts:311 calls the last cumulative amount the latest balance. After a settlement from a
  bucket to itself it is too high by the amount (`CacheRefinement.InternalSettlementDrift`, `CacheRefinement.CacheLawHolds`).
- src/common/queue/webhook.processor.ts:387 and the comment at 403-407 speak of an idempotency guarantee per event. For
  inflows the transaction reference is the only gate (`InflowRuns.OneEventEvaluatedTwice`; which payloads an eventId
  does gate is `EventIds.EventIdGatedExactlyWhen`), and a run that
  dies between recording and evaluating is never made up for (`InflowRuns.RedeliveryCannotRepairCrash`).
- src/rules/rule-engine.service.ts:386 says FLAG_FOR_REVIEW marks the inflow for a human. The worker overwrites the mark
  (`InflowSafety.FlagIsOverwritten`).
- rule-schema.ts:225-239 shows funds released by a custom event. Such a release never writes a ledger row
  (`PipelineSafety.CustomEventNeverAllocates`).
- src/treasury/treasury.service.ts:173-177 closes only empty buckets. A bucket credited after the reads is closed with
  its money (`BucketClosing.ClosingCanStrandMoney`), an internal settlement pays into a closed one
  (`BucketClosing.SettlementStrandsMoney`), and so do a waiting retry and a first attempt that has passed its status
  check (`PipelineRuns.RetryCreditsClosedBucket`, `PipelineRuns.FirstAttemptCreditsClosedBucket`). The exact condition
  for closed buckets to be empty is `BucketClosing.ClosedEmptyOverRuns`.
- src/accounts/account-lifecycle.service.ts:286 says terminal states cannot transition to anything else. A request that
  read an open status writes over them (`Lifecycle.OverrideReopensClosed`, `Lifecycle.ClosingOverwritesExpired`).
- src/rules/rules.service.ts:162 says a rule is set ACTIVE only from FLAGGED_FOR_REVIEW. A rule archived after the check
  is set ACTIVE too (`RuleSetRuns.ToggleRevivesArchived`).
- src/rules/rules.service.ts:285-286 says a PARALLEL rule set never exceeds 100%. Account creation, two concurrent
  replacements and re-enabling exceed it (`RuleSetRuns.ProvisioningCanExceed`, `RuleSetRuns.ConcurrentReplacementsExceed`,
  `RuleSetRuns.FlagReplaceReenable`).
- src/rules/rule-engine.service.ts:618 calls the reference one allocation per ledger entry and bucket. Two rules of an
  account that release to one bucket share it, and so do two buckets whose ids share eight characters; the second
  release ends COMPLETED and its bucket receives nothing (`PipelineRuns.CompetitorLosesItsShare`). Who is paid is
  `PipelineSafety.PaidExactlyWhen`.

## Model

| member | source | states |
|---|---|---|
| CacheRefinement.CacheLawHolds | src/treasury/settlement.service.ts:314-324 | In every run, for every bucket, the O(1) read equals SUM(CREDIT) - SUM(DEBIT) plus a drift that the history determines; no side condition |
| CacheRefinement.CacheRefinesSum | src/treasury/allocation.service.ts:150-166 | In every run without a settlement from a bucket to itself the O(1) read equals the full sum on every bucket |
| CacheRefinement.InternalSettlementDrift | src/treasury/settlement.service.ts:352-385 | A committed internal settlement leaves the cache exact if and only if source and destination differ; otherwise it is too high by exactly the amount and the true balance is unchanged |
| CacheRefinement.SelfSettlementDriftsCache | src/treasury/settlement.service.ts:343-400 | A concrete run after which a bucket of 100 kobo reads as 200 |
| CacheRefinement.DriftCarriedOrHealed | src/treasury/settlement.service.ts:425-439 | Bank completions carry a drift on unchanged; the next new credit or transfer on the bucket removes it |
| Solvency.StepSolvency | src/treasury/settlement.service.ts:96-148 | From a solvent state a step stays solvent if and only if it is not a transfer or reservation above balance - reserved |
| Solvency.SolvencyOverRuns | src/treasury/settlement.service.ts:96-258 | Every state of a run keeps 0 <= reserved <= balance on every bucket if and only if no step of the run overdraws, with aborts, failures and crashes anywhere |
| Solvency.SolventWhenTransfersFit | src/treasury/settlement.service.ts:330-339 | Any interleaving of credits and settlements stays solvent when no settlement pays its own bucket and each transfer fits the available balance |
| Solvency.SolventWithoutTransfers | src/treasury/settlement.service.ts:96-148 | Without transfers, distinct source and destination are all it takes |
| Solvency.TransferCanOverdraw | src/treasury/treasury.service.ts:326-335 | A run in which reserved money is transferred away and the completed settlement leaves the bucket at -100 |
| SettlementProtocol.TerminalForever | src/treasury/settlement.service.ts:150-258 | In every run a COMPLETED or FAILED settlement never changes again, no settlement disappears, and bucket, amount and destination are fixed |
| SettlementProtocol.OneDebitPerCompletedSettlement | src/treasury/settlement.service.ts:416-450 | Exactly one source DEBIT, on its bucket and of its amount, for a COMPLETED settlement and none for any other |
| SettlementProtocol.BankDebitOnlyAfterAcceptance | src/treasury/settlement.service.ts:175-205 | Every bank DEBIT belongs to a settlement whose transfer Nomba accepted |
| SettlementProtocol.BankDebitsAgainstAccepted | src/treasury/settlement.service.ts:185-229 | Bank debits sum to at most the accepted transfers, with equality exactly when every accepted transfer's settlement is COMPLETED |
| Conservation.MoneyConserved | src/treasury/treasury.service.ts:305-372 | In every run a business's bucket balances add up to its allocations minus its COMPLETED bank settlements |
| Conservation.OtherTenantsUntouched | src/treasury/settlement.service.ts:483-501 | A step of one business changes no balance, cached balance or reservation of another business's bucket |
| Idempotency.ReferencesStayUnique | prisma/schema.prisma:506-514 | In every run no two ledger rows share a reference |
| Idempotency.LedgerOnlyGrows | prisma/schema.prisma:501-504 | In every run ledger rows are only appended |
| Idempotency.RepeatedCreditIsNoOp | src/treasury/allocation.service.ts:58-65 | After a credit has committed, any later credit with its reference changes nothing, whatever ran in between |
| Idempotency.RunsIsFirstNonConflict | src/treasury/allocation.service.ts:123-143 | The replay loop stops at the first attempt that is no serialization conflict, after at most maxRetries + 1 runs |
| TreasuryStore.Store.CreditOnce | src/treasury/allocation.service.ts:57-83 | One credit transaction: it succeeds exactly for a known reference or an existing bucket; a new reference adds one CREDIT of the amount and raises that balance alone; the reply is the cumulative amount on the row that holds the reference |
| TreasuryStore.Store.CreditWithReplay | src/treasury/allocation.service.ts:55-143 | For every pattern of conflicts and of other requests in between: on success the tables are those after exactly one credit, on failure the credit left no trace |
| TreasuryStore.Store.GetBalance | src/treasury/treasury.service.ts:227-239 | Reports the full sum, the reservations, and an available amount that adds up with them |
| TreasuryStore.Store.CloseBucket | src/treasury/treasury.service.ts:179-207 | One undisturbed request, as a run of its three reads and its update: it closes exactly an open bucket with no balance and no reservation, with the right refusal otherwise |
| BucketClosing.StepClosedEmpty | src/treasury/treasury.service.ts:173-207 | If every CLOSED bucket has balance 0 and nothing reserved, a step keeps it so if and only if it is none of: closing a bucket that is not empty now, a new positive allocation to a closed one, an internal settlement completing into one, a reservation on one |
| BucketClosing.ClosedEmptyOverRuns | src/treasury/treasury.service.ts:173-207 | Over whole runs: closed buckets are empty in every state if and only if no step is one of these |
| BucketClosing.ClosingStrandsExactlyWhen | src/treasury/treasury.service.ts:180-207 | In every run a closing request closes a bucket that is not empty if and only if the balance has changed since it read the balance, or the reservations since it read those |
| BucketClosing.ClosedBucketCreditedExactlyWhen | src/treasury/settlement.service.ts:352-385 | The balance of a closed bucket grows exactly by a new positive allocation or by an internal settlement that completes into it |
| BucketClosing.ClosingCanStrandMoney | src/treasury/treasury.service.ts:189-207 | A run in which a bucket is credited between the reads and the update of a closing request, and is CLOSED holding 100 kobo |
| BucketClosing.SettlementStrandsMoney | src/treasury/settlement.service.ts:343-400 | A run without any race in which an internal settlement completes into a bucket closed empty, which then holds 100 kobo |
| TreasuryStore.Store.TransferBetweenBuckets | src/treasury/treasury.service.ts:290-372 | Succeeds exactly when the amount is positive, the buckets differ, exist and are ACTIVE, the source holds the amount and the uuid is fresh; then the source loses the amount, the destination gains it and no other balance changes |
| TreasuryStore.Store.ReserveFunds | src/treasury/settlement.service.ts:96-148 | Succeeds exactly when the amount is positive, the bucket exists, its status was read as ACTIVE, the cached balance covers reservations and amount, and the id is new; then one PENDING row of that amount is added |
| TreasuryStore.Store.CompleteSettlement | src/treasury/settlement.service.ts:416-450 | Commits exactly unless the transaction aborts or its reference is taken; then one DEBIT of the amount and COMPLETED are written together and that balance alone falls by the amount |
| TreasuryStore.Store.SettleBetweenBuckets | src/treasury/settlement.service.ts:343-400 | Commits exactly unless the transaction aborts, the destination is unknown or a reference is taken; then the amount moves from source to destination and COMPLETED is written with it |
| TreasuryStore.Store.ExecuteBankTransfer | src/treasury/settlement.service.ts:175-205 | Missing details, a refused transfer or an aborted second transaction leave the ledger alone |
| TreasuryStore.Store.Execute | src/treasury/settlement.service.ts:150-205 | The part between reservation and outcome is a run of the state machine; it commits exactly when the transfer goes through, and then moves exactly the amount |
| TreasuryStore.Store.MarkSettlementFailed | src/treasury/settlement.service.ts:212-229 | FAILED unless its own write is lost |
| TreasuryStore.Store.Initiate | src/treasury/settlement.service.ts:62-259 | A whole request: refused exactly when the amount cannot be reserved; otherwise it succeeds exactly when Nomba accepts a transfer with full details, or the destination bucket exists, and the completing transaction commits, and then exactly the amount leaves the bucket and reaches the payee; a failed one leaves the ledger unchanged and returns the reservation unless the FAILED write is lost |
| RuleEngine.ConditionIsRange | rule-schema.ts:44-55 | Every valid inflow condition means one amount interval and one cumulative lower bound, and is satisfiable exactly when the interval is not empty |
| RuleEngine.CustomEventFiresInflowRule | src/rules/rule-engine.service.ts:152-183 | A custom event matches an inflow rule exactly when its condition has only upper bounds |
| RuleEngine.Evaluate | src/rules/rule-engine.service.ts:102-133 | The loop returns the order-preserving filter for PARALLEL and its first element or nothing for SEQUENTIAL |
| RuleEngine.EvaluationAgainstTable | src/rules/rule-engine.service.ts:83-133 | For any priority-sorted fetch: SEQUENTIAL fires one rule of minimal priority exactly when some ACTIVE rule matches; PARALLEL fires each matching rule exactly as often as it is stored |
| Split.EnforcePercentageSum | src/rules/rules.service.ts:290-310 | Accepts exactly the lists whose release percentages total at most 100 |
| Split.PercentageIsFloor | src/rules/rule-engine.service.ts:588-591 | The credit is floor(percentage * amount / 100) |
| Split.ReleaseKinds | rule-schema.ts:123-134 | A validated release names a destination and either a percentage from 1 to 100, or a fixed amount of at least one kobo, or neither |
| Split.SplitBound | src/rules/rule-engine.service.ts:586-593 | For an accepted all-percentage list the credits of any sublist sum to at most the inflow |
| Split.SplitBoundExactlyWhen | src/rules/rules.service.ts:290-310 | For an all-percentage list, whichever rules fire stay within every inflow if and only if the percentages total at most 100 |
| Split.FiredRulesStayWithinInflow | src/rules/rule-engine.service.ts:102-133 | The rules PARALLEL evaluation fires for an event are such a sublist |
| Split.RemainderBound | rule-schema.ts:123-134 | When percentages total 100 and all fire, the unallocated remainder is smaller than the number of rules |
| RuleSets.DefinitionsForever | prisma/schema.prisma:324-349 | Between any two states of a run, no rule, account or customer disappears and definitions, tier snapshots, businesses and owners are fixed |
| RuleSets.ArchivedLeftExactlyWhen | src/rules/rules.service.ts:173-196 | At every step of every run ARCHIVED is left if and only if a toggle or tier update that read the rule before it was archived writes it now |
| RuleSets.ArchivedForeverExactlyWhen | src/identity/identity.service.ts:168-188 | Over whole runs: ARCHIVED is never left if and only if no such late write occurs |
| RuleSetRuns.ToggleRevivesArchived | src/rules/rules.service.ts:175-187 | A run in which a rule deleted between check and write of a toggle becomes ACTIVE |
| RuleSetRuns.TierUpdateRevivesArchived | src/identity/identity.service.ts:168-188 | A run in which a rule deleted between search and flagging becomes FLAGGED_FOR_REVIEW |
| RuleBounds.StepBound | src/rules/rules.service.ts:69-116 | From a bounded state a step keeps ACTIVE percentages <= 100 if and only if it inserts or switches on nothing that does not fit beside what is ACTIVE |
| RuleBounds.BoundOverRuns | src/rules/rules.service.ts:167-216 | From any bounded state of a run on, the bound holds in every state if and only if no step exceeds it, with requests interleaving at every access |
| RuleBounds.BoundAfterParallelReplace | src/rules/rules.service.ts:69-116 | After the insert of a replacement accepted as PARALLEL, with nothing else ACTIVE, the bound survives every later step except switching a rule on, inserting a SEQUENTIAL set, or inserting while another replacement of the account stands between its two writes |
| RuleBounds.ReplacementStaysOnAccount | src/rules/rules.service.ts:82-116 | No step of a replacement changes a rule of another account |
| RuleSetRuns.ConcurrentReplacementsExceed | src/rules/rules.service.ts:83-116 | A run of two checked replacements of 60% that ends with 120% ACTIVE on a PARALLEL account |
| RuleSetRuns.ProvisioningCanExceed | src/accounts/account-lifecycle.service.ts:50-64 | A run in which account creation accepts a PARALLEL rule set of 120% |
| RuleSetRuns.FlagReplaceReenable | src/rules/rules.service.ts:175-187 | A run flag, replace, re-enable that ends with 120% ACTIVE on a PARALLEL account |
| KycReview.StepReviewed | src/identity/identity.service.ts:157-188 | If every outdated ACTIVE rule is about to be flagged, a step keeps it so if and only if it neither inserts rules under an outdated tier too late for every tier update nor kills the only update that would flag a rule |
| KycReview.ReviewOverRuns | src/identity/identity.service.ts:157-188 | Over whole runs: every outdated ACTIVE rule is always about to be flagged if and only if no step does either |
| KycReview.KycStaleness | src/rules/rules.service.ts:75-109 | In such a run, whenever no tier update is under way, each ACTIVE rule carries its customer's current tier or was re-enabled since that tier was set |
| KycReview.ReenabledExactlyWhen | src/rules/rules.service.ts:175-187 | In every run re-enabled means: switched on by a toggle, and the customer's tier not written since |
| KycReview.OtherCustomersUntouched | src/identity/identity.service.ts:168-188 | In every run no step of a tier update changes the status of a rule on another customer's account |
| KycReview.NeverExposesWithoutOverlap | src/accounts/account-lifecycle.service.ts:79-137 | Runs in which no tier is written between another request's tier read and its insert, and no tier update dies half way, are such runs |
| RuleSetRuns.ReplacementEscapesReview | src/rules/rules.service.ts:75-109 | A run in which a whole tier update falls between tier read and insert, and the new rule stays ACTIVE under the old tier |
| RuleSetRuns.ProvisioningEscapesReview | src/accounts/account-lifecycle.service.ts:79-137 | The same around the Nomba call of account creation |
| RuleStore.Store.ReplaceRuleSet | src/rules/rules.service.ts:36-116 | One undisturbed request as a run: each refusal exactly when its guard fails; otherwise exactly the ACTIVE rules of the account are archived, no other old rule changes, one ACTIVE rule per definition is added under the customer's tier, and the ACTIVE share is the new set's, at most 100 for PARALLEL |
| RuleStore.Store.CreateCustomer | src/identity/identity.service.ts:27-33 | A new customer starts at TIER_1 with a BVN and at TIER_0 without |
| RuleStore.Store.ProvisionAccount | src/accounts/account-lifecycle.service.ts:50-145 | Succeeds exactly for a valid rule set, a new reference, a known customer and a willing Nomba; then the account and one ACTIVE rule per definition under the customer's tier are added and nothing else changes |
| RuleStore.Store.ToggleRule | src/rules/rules.service.ts:167-216 | Switches on exactly flagged rules, archives on switching off, and changes nothing but that rule's status |
| RuleStore.Store.DeleteRule | src/rules/rules.service.ts:227-254 | Archives a rule of the account whatever its status |
| RuleStore.Store.UpdateKycTier | src/identity/identity.service.ts:137-226 | Writes the tier, searches, flags: afterwards a rule is flagged if and only if it was, or it was ACTIVE, on an account of this customer and written under another tier; every other status is unchanged; the returned ids are the newly flagged ones, in order, without repetition |
| AccountLedger.AppendKeepsTotals | src/ledger/ledger.service.ts:58-88 | A new inflow row keeps every row's cumulative amount equal to its account's sum up to that row |
| AccountLedger.ThresholdPersists | src/rules/rule-engine.service.ts:176-180 | On one account a condition bounded only by cumulative_gte stays matched from its first match on |
| InflowSafety.OneRowPerTransaction | src/ledger/ledger.service.ts:50-89 | In every run one ledger row per transactionRef, each with its account's running total, suspended inflows included |
| InflowSafety.RowCarriesPayload | src/ledger/ledger.service.ts:58-88 | In every run each row, recorded while ACTIVE or SUSPENDED, carries the account, transaction and amount of the inflow delivered to its run |
| InflowSafety.RulesEvaluatedAtMostOnce | src/common/queue/webhook.processor.ts:254-288 | Under any interleaving of duplicates, redeliveries and crashes rules are evaluated at most once per transactionRef and per custom eventId |
| InflowSafety.EvaluatedAsRecorded | src/common/queue/webhook.processor.ts:190-288 | An inflow is evaluated by the run that recorded it, with its row's amounts, and only if that run read the account as ACTIVE |
| InflowSafety.ThresholdPersistsAcrossRuns | src/ledger/ledger.service.ts:50-89 | A cumulative_gte rule that matched an evaluated inflow matches every evaluated inflow recorded later on the account |
| EventIds.EventIdGatedExactlyWhen | src/common/queue/webhook.processor.ts:48-134 | For any set of payloads with one eventId: every run that delivers the eventId with these payloads only, any number of times, evaluates it at most once if and only if any two of them are both custom events or both inflows with one transactionRef |
| InflowSafety.EventIdDoesNotGateInflows | src/common/queue/webhook.processor.ts:387-396 | A run past its first check evaluates a new transaction even if its eventId has been claimed meanwhile |
| InflowSafety.LostForever | src/common/queue/webhook.processor.ts:402-422 | A row held back, or whose writer died before evaluating, is never evaluated in any continuation |
| InflowSafety.FateOfEveryInflow | src/common/queue/webhook.processor.ts:253-288 | In every run each row is in exactly one of three situations: evaluated, about to be evaluated by its writer, or lost for good |
| InflowRuns.OneEventEvaluatedTwice | src/common/queue/webhook.processor.ts:48-61 | A run in which a second delivery of an eventId that is already in the table evaluates rules |
| InflowRuns.RedeliveryCannotRepairCrash | src/common/queue/webhook.processor.ts:402-425 | A run in which a crash loses an inflow, the redelivery is discarded, and no continuation ever evaluates it |
| InflowSafety.CrashLosesInflow | src/common/queue/webhook.processor.ts:402-425 | A crash right after recording makes the row lost |
| InflowSafety.FlagIsOverwritten | src/common/queue/webhook.processor.ts:344-371 | When the writing run is done its row is FLAGGED exactly if it was held back while SUSPENDED |
| InflowStore.Store.WriteRow | src/ledger/ledger.service.ts:46-92 | Inserts the row with the account's new total, or refuses a known transactionRef |
| InflowStore.Store.RecordInflow | src/common/queue/webhook.processor.ts:189-268 | Only a new inflow to an ACTIVE account goes on to evaluation; SUSPENDED records a FLAGGED row; CLOSED and EXPIRED record nothing |
| InflowStore.Store.EvaluateRecorded | src/common/queue/webhook.processor.ts:279-396 | One evaluation, then the reconciliation of that row, then the ProcessedEvent row |
| InflowStore.Store.ProcessInflow | src/common/queue/webhook.processor.ts:189-396 | The tables after the inflow branch, case by case |
| InflowStore.Store.ProcessCustomEvent | src/common/queue/webhook.processor.ts:107-144 | Claims the eventId, then evaluates once, without a ledger row |
| InflowStore.Store.Process | src/common/queue/webhook.processor.ts:40-396 | A whole undisturbed delivery evaluates rules exactly when the event is new, the account known, and it is custom or a new inflow to an ACTIVE account |
| Release.ReferenceInjective | src/rules/rule-engine.service.ts:618-619 | Two allocation references are equal exactly when transaction and eight-character bucket prefix are |
| ReleaseOutcomes.CreditAmountNames | src/rules/rule-engine.service.ts:586-606 | The amount computed is the percentage of the inflow rounded down, or the fixed amount whatever the inflow, and there is none exactly when the payload names neither |
| ReleaseOutcomes.FirstAttemptOutcome | src/rules/rule-engine.service.ts:531-698 | A first attempt, undisturbed: FAILED exactly for a missing, unknown or inactive destination or no amount; zero completes without a row; otherwise COMPLETED with exactly one row under the reference, or RETRYING with nothing written |
| ReleaseOutcomes.RetryOutcome | src/common/queue/retry.processor.ts:110-329 | A retry, undisturbed: FAILED for good, COMPLETED with exactly one row, or RETRYING with the attempt counted, FAILED at the fifth; neither status nor zero amount is looked at |
| ReleaseOutcomes.MarkOutcome | src/rules/rule-engine.service.ts:631-684 | The update after the credit, written or lost, in a first attempt or a retry |
| ReleaseOutcomes.EnqueueOutcome | src/common/queue/webhook.processor.ts:313-335 | A retry job starts with no attempt made |
| ReleaseOutcomes.ArchiveOutcome | src/accounts/account-lifecycle.service.ts:428-441 | Closing an account archives exactly its own PENDING and RETRYING executions |
| PipelineMeaning.AllocationRowMeans | src/rules/rule-engine.service.ts:586-629 | In every run every allocation row is on the bucket of the account's business that its rule names, under the reference of its transaction and bucket, and of the percentage of the recorded inflow rounded down or of the fixed amount that its rule names |
| PipelineMeaning.InflowPlanMeans | src/rules/rule-engine.service.ts:82-183 | In every run the plan for a recorded inflow is: under PARALLEL exactly the account's ACTIVE rules whose range contains the row's amount and running total, each once, by priority; under SEQUENTIAL one of minimal priority among them, if any |
| PipelineMeaning.CustomPlanMeans | src/common/queue/webhook.processor.ts:137-168 | The same for a custom event: rules of exactly its name, and inflow rules whose range contains zero |
| PipelineMeaning.ModelAsRead | src/common/queue/webhook.processor.ts:64-67 | In every run the execution model of an evaluation is the one the account had when the run read it |
| PipelineMeaning.MatchedExactlyWhen | src/common/queue/webhook.processor.ts:344-371 | In every run a reconciled row that was not held back is MATCHED if and only if some rule fired |
| PipelineProgress.PlanCanComplete | src/common/queue/webhook.processor.ts:290-342 | From every reachable state between two rules a healthy environment takes the run to the end of its plan: every release left gets an execution, COMPLETED exactly if its bucket is ACTIVE and it names an amount |
| PipelineProgress.RunCanFinish | src/common/queue/webhook.processor.ts:344-396 | A run that has executed its plan reconciles its row and remembers its event |
| PipelineProgress.FailedReleaseCanComplete | src/common/queue/retry.processor.ts:110-179 | From every reachable state in which a first attempt returned RETRYING a healthy environment enqueues it and its first retry completes it |
| PipelineSafety.AllocatedExactlyOnce | src/rules/rule-engine.service.ts:586-643 | In every run of the whole pipeline at most one row per reference, and exactly one for a COMPLETED release of a positive amount |
| PipelineSafety.PaidExactlyWhen | src/rules/rule-engine.service.ts:617-643 | In every run a COMPLETED release of a positive amount has written its own row, on its bucket and of its amount, if and only if no other execution of the same transaction, to a bucket with the same id prefix, has written one |
| PipelineSafety.CompletedReleaseIsOwnCredit | src/common/queue/retry.processor.ts:286-313 | Its corollary: if no other execution competes for its reference at all, a COMPLETED release has a CREDIT on its own bucket of its own amount |
| ReleaseSafety.CompetesExactlyWhen | src/rules/rule-engine.service.ts:618-619 | Executions compete exactly when they release from one transaction to buckets with equal id prefixes |
| ReleaseSafety.CompetitorIsSwallowed | src/treasury/allocation.service.ts:58-65 | Whoever comes second is marked COMPLETED while no table of the treasury changes |
| PipelineRuns.CompetitorLosesItsShare | src/rules/rule-engine.service.ts:618-643 | A run in which two releases of 60 and 40 kobo complete and only 60 kobo are credited |
| PipelineLinks.LookupStable | src/common/queue/retry.processor.ts:117-123 | What a retry reads through the execution's keys is the same in every later state, while rule statuses, execution models and reconciliation statuses change |
| PipelineSafety.RetryRepeatsFirstAttempt | src/common/queue/retry.processor.ts:243-313 | In every run a retry, which looks rule and ledger row up again, works with the same bucket, reference and amount as the first attempt, which held them in memory |
| PipelineSafety.RetriesArePositive | src/common/queue/retry.processor.ts:286-301 | Every retry attempt has a positive amount and is one of at most five |
| PipelineSafety.InactiveBucketCreditedExactlyWhen | src/rules/rule-engine.service.ts:552-629 | In every run an allocation credit goes to a bucket that is not ACTIVE if and only if the bucket was closed before it and the credit is a retry's, or a first attempt's that read the bucket before the closing |
| PipelineRuns.FirstAttemptCreditsClosedBucket | src/rules/rule-engine.service.ts:575-629 | A run in which an empty bucket closed between status check and credit of a first attempt receives 60 kobo |
| PipelineRuns.RetryCreditsClosedBucket | src/common/queue/retry.processor.ts:262-313 | A run in which a retry credits a bucket closed while it waited |
| PipelineSafety.CustomEventNeverAllocates | src/rules/rule-engine.service.ts:234-249 | A release from a custom event writes no ledger row and gets no retry job |
| ReleaseSafety.ResolvedLeftExactlyWhen | src/common/queue/retry.processor.ts:130-161 | A resolved execution changes status if and only if it was ARCHIVED under an attempt in flight and that attempt now writes its result |
| PipelineSafety.ResolvedForever | src/common/queue/retry.processor.ts:130-137 | With no attempt in flight COMPLETED, FAILED and ARCHIVED are never left, in any run |
| PipelineRuns.ArchiveCanBeOverwritten | src/accounts/account-lifecycle.service.ts:428-441 | A run in which an execution archived between its credit and its COMPLETED update ends COMPLETED |
| AllocationBound.AllocatedWithinPlan | src/common/queue/webhook.processor.ts:279-342 | In every run, whatever the rules, all that was ever credited from a transaction is at most what the rules matched by the one run that recorded it add up to |
| AllocationBound.AllocatedIsPlanExactlyWhen | src/common/queue/webhook.processor.ts:301-342 | The two are equal if and only if every matched release that is worth something was started and has written its row |
| AllocationBound.CompletedPlanArrives | src/rules/rule-engine.service.ts:586-643 | So it is when every rule was started, every release COMPLETED and none was beaten to its reference |
| AllocationBound.NothingWithoutRow | src/common/queue/webhook.processor.ts:146-168 | A transactionRef without a ledger row, such as a custom event's, allocates nothing |
| AllocationBound.FiredIsEvaluation | src/rules/rule-engine.service.ts:82-133 | What a worker run goes on to execute is exactly what the evaluation loop returns for the fetched rules |
| AllocationBound.AllocationsWithinInflow | src/rules/rule-engine.service.ts:586-643 | End to end: if the account's ACTIVE release rules are percentages when an inflow is evaluated, of at most 100 together if the run executes in PARALLEL, everything ever credited from it, over all attempts, retries, crashes and redeliveries, is at most the inflow |
| PipelineSafety.TreasuryRunOf | src/treasury/allocation.service.ts:55-89 | Every run of the pipeline is, on the treasury tables, a run of the treasury machine, so all theorems about treasury runs hold of it |
| RetryJob.AttemptIsProcess | src/common/queue/retry.processor.ts:110-227 | One attempt made of the steps of the execution tables, with the account closed before it or the database throwing or not, leaves the status of the job model and counts as made exactly when it throws |
| RetryJob.DeadLetterExactlyWhen | src/common/queue/retry.processor.ts:64-71 | A step dead-letters a job if and only if the database throws during its last attempt |
| RetryJob.ThrowsOnLastAttempt | src/common/queue/retry.processor.ts:181-227 | An action failure throws only with attempts left; an attempt that returns leaves the execution resolved; a resolved one is not changed |
| RetryJob.RunJob | src/common/queue/retry.processor.ts:64-227 | A job makes 1 to maxAttempts attempts; it is dead-lettered exactly when all throw, and then the last threw because of the database; otherwise its execution is resolved |
| RetryJob.NoDeadLetterFromActions | src/common/queue/retry.processor.ts:64-71 | If the last attempt runs to its end the dead-letter branch is not taken |
| Lifecycle.TerminalLeftExactlyWhen | src/accounts/account-lifecycle.service.ts:294-345 | At every step of every run of interleaved overrides, closings and rule actions a terminal status is left if and only if a request that read an open status before the account ended writes now, and writes something else |
| Lifecycle.AbsorbingExactlyWhen | src/accounts/account-lifecycle.service.ts:403-462 | Over whole runs: EXPIRED and CLOSED are absorbing if and only if no such late write occurs |
| Lifecycle.AbsorbingWhenIsolated | src/accounts/account-lifecycle.service.ts:305-345 | They are absorbing when no status change lies between a request's read and its write |
| Lifecycle.FirstEndingDecides | src/rules/rule-engine.service.ts:263-291 | The first write that closes or expires the account decides how it ends, for good unless a write is late |
| Lifecycle.OverrideReopensClosed | src/accounts/account-lifecycle.service.ts:294-345 | A run in which an override that read ACTIVE turns CLOSED into SUSPENDED |
| Lifecycle.ClosingOverwritesExpired | src/accounts/account-lifecycle.service.ts:403-462 | A run in which a rule expires the account during the Nomba call of a closing, which then writes CLOSED |
| Lifecycle.RuleReopensClosed | src/rules/rule-engine.service.ts:342-354 | A run in which a suspend rule that read ACTIVE reopens a CLOSED account |
| Lifecycle.UndisturbedRequest | src/rules/rule-engine.service.ts:334-354 | Read, Nomba's answer and write of one request without interruption have the effect the services' methods are specified by |
| Lifecycle.FoldClosedForm | src/rules/rule-engine.service.ts:263-291 | The status after a list of matched rules: unchanged if terminal, else EXPIRED if any expires, else decided by the last suspend or reactivate |
| Lifecycle.ExecuteStatusActions | src/common/queue/webhook.processor.ts:301-311 | The worker's loop computes that fold |
| Lifecycle.Account.UpdateStatus | src/accounts/account-lifecycle.service.ts:305-345 | Succeeds if and only if it exchanges ACTIVE and SUSPENDED; otherwise nothing changes |
| Lifecycle.Account.CloseAccount | src/accounts/account-lifecycle.service.ts:414-462 | Archives unfinished executions even if Nomba then refuses; CLOSED only if it confirms |
| Lifecycle.Account.HandleStatusChange | src/rules/rule-engine.service.ts:334-383 | Applies the action from an allowed status, otherwise a COMPLETED no-op |
| CsvExport.ExportParses | src/ledger/ledger.service.ts:265-307 | Reading the export gives the ten-column header and exactly one ten-field record per entry, each field its value or its value behind a single quote, for arbitrary contents |
| CsvExport.ExportColumns | src/ledger/ledger.service.ts:271-290 | Column by column: under each of the ten headers the reader finds that attribute of the entry, behind a single quote if it starts with =, +, -, @, tab or CR, the amount in whole naira |
| CsvExport.NoFormulaSurvives | src/ledger/ledger.service.ts:293-307 | No field read back starts with =, +, -, @, tab or CR |
| CsvExport.ExportInjectiveOnFields | src/ledger/ledger.service.ts:271-290 | Two exports are equal exactly when all their records are |
| CsvExport.GuardCollisions | src/ledger/ledger.service.ts:301-307 | Two values print the same exactly when they are equal or one is the other, a formula, behind a single quote |
| CsvExport.AmountColumn | src/ledger/ledger.service.ts:278 | The amount column read back is the amount in whole naira, kobo cut off |

## Left out

- Database isolation: transactions are taken to be mutually atomic. `credit` is Serializable without a row lock while transfers and settlements lock rows at the default level; that they exclude each other is an assumption.
- The order (createdAt, id) behind `latestBalance` is taken to be append order within a bucket.
- Number widths: kobo amounts are unbounded integers; the conversion to a 53-bit `Number` in `matches` and the division by 100 for Nomba are not modelled.
- Reads that nothing can make stale share a step with the next access: the duplicate check of account creation (its unique key decides), the existence check of a tier update, and the read of an execution with its rule and ledger row.
- The bucket status that a settlement request reads before its first transaction may be any status, read at any time: the runs include more than the code allows.
- A retry job has one attempt at a time; two processes running the same job at once are not modelled.
- In `Pipeline` rule actions other than RELEASE_FUNDS are passed over, account statuses change at any time, and a worker that dies inside an attempt takes two steps, one for the attempt and one for the run.
- NOTIFY_WEBHOOK delivery is only an outcome of a retry attempt; TIME_ELAPSED and TIER_CHANGED rules never match during webhook processing and the scheduler only logs.
- Business scoping of rules, customers and accounts: their lookups are by unique key and are not repeated per business.
- `TreasuryService.withdraw`: its route uses the settlement service, so it would only repeat a weaker step.
- `writeOutflow`, account balances and summaries: nothing in the repository calls the first; the others are plain sums.
- The Nomba client, signatures, encryption, controllers, guards, audit writes, metrics, pagination and wall-clock times.
