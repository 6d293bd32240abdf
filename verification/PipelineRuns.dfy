/** Concrete runs of the pipeline: releases that are swallowed, closed buckets that are credited, an archived
    execution that completes. */
module PipelineRuns {
  import opened Wrappers
  import A = AccountStatuses
  import opened BucketLedger
  import opened RuleEngine
  import opened AccountLedger
  import T = Treasury
  import RS = RuleSets
  import W = InflowWorker
  import R = Release
  import opened Pipeline

  // ----- The setup: a PARALLEL account with 60% to one bucket and 40% to another, and an inflow of 100 kobo

  const TAX := BucketId("biz", "tax")
  const VAT := BucketId("biz", "vat")

  const ANY_INFLOW := InflowReceived(InflowCondition(Some(1), None, None, None, None))
  const PAY_TAX := ReleasePayload("tax", Some(60), None)
  const PAY_VAT := ReleasePayload("vat", Some(40), None)
  const RULE_TAX := RuleDefinition(ANY_INFLOW, ReleaseFunds(PAY_TAX), 0)
  const RULE_VAT := RuleDefinition(ANY_INFLOW, ReleaseFunds(PAY_VAT), 1)

  const INFLOW := W.Payload("event", "tx", "acc", 100, None)

  /** Account and rules, then two buckets whose ids differ only in the ninth character, then the worker run up to the
      first attempt of the first rule. */
  const SETUP: seq<Action> := [
    ChangeRules(RS.CreateCustomer("ada", false)),
    ChangeRules(RS.Arrive(RS.Provision("acc", "biz", "ada", PARALLEL, [RULE_TAX, RULE_VAT]))),
    ChangeRules(RS.Work(0, true)), ChangeRules(RS.Work(0, true)),
    Execution(R.DoProvisionBucket(TAX, "clabcdef1")), Execution(R.DoProvisionBucket(VAT, "clabcdef2")),
    Worker(W.Deliver(INFLOW)), Worker(W.Work(0, true)), Worker(W.Work(0, true)), Worker(W.Work(0, true)),
    DoEvaluate(0, [0, 1]), DoLoadRow(0), DoBegin(0)]

  const CUSTOMERS: map<string, RS.KycTier> := map["ada" := RS.TIER_0]
  const RULES := RS.State(
    CUSTOMERS, map["acc" := RS.Account("biz", "ada", PARALLEL)],
    [RS.Rule("acc", RULE_TAX, RS.ACTIVE, RS.TIER_0, false), RS.Rule("acc", RULE_VAT, RS.ACTIVE, RS.TIER_0, false)],
    [RS.Finished])

  const OPEN := W.State(map["acc" := A.ACTIVE], [], map[], [], [])
  const ROW := LedgerEntry("acc", "tx", 100, 100, PENDING, 0, A.ACTIVE)
  const EVALUATED := W.State(map["acc" := A.ACTIVE], [ROW], map[], [W.Worker(INFLOW, W.Evaluated(true))],
                             [W.Evaluation(0, INFLOW, InflowEvent(100, 100))])

  const BUCKETS: map<BucketId, A.AccountStatus> := map[TAX := A.ACTIVE, VAT := A.ACTIVE]
  const CUIDS: map<BucketId, string> := map[TAX := "clabcdef1", VAT := "clabcdef2"]
  const FUNDED := T.State(BUCKETS, [], [], [])

  const MATCHED: seq<Fetched> := [Fetched(0, "biz", RULE_TAX), Fetched(1, "biz", RULE_VAT)]
  const TASK_TAX := R.Task("biz", PAY_TAX, "tx", 100, true)
  const TASK_VAT := R.Task("biz", PAY_VAT, "tx", 100, true)

  function Started(rule: nat, task: R.Task): R.Execution {
    R.Execution(rule, Some(0), "acc", R.PENDING, R.Acting(0, task), None, 0, task, false)
  }

  function Planned(next: nat): seq<Plan> {
    [Plan(PARALLEL, MATCHED, Some(Record(0, "tx", 100)), next)]
  }

  /** The state after the setup, with these treasury tables and executions. */
  function Ready(treasury: T.State, executions: seq<R.Execution>): State {
    State(RULES, EVALUATED, Planned(1), R.Core(treasury, CUIDS, executions))
  }

  lemma RulesValid()
    ensures ValidRuleSet([RULE_TAX, RULE_VAT])
  {
    assert ValidRule(RULE_TAX) && ValidRule(RULE_VAT);
  }

  lemma ProvisioningReads(run: seq<Action>)
    requires SETUP <= run
    ensures At(run, 3) == INITIAL.(rules := RS.State(CUSTOMERS, map[], [],
      [RS.Provisioning("acc", "biz", "ada", PARALLEL, [RULE_TAX, RULE_VAT], RS.TIER_0)]))
  {
    RulesValid();
    assert run[0] == SETUP[0] && run[1] == SETUP[1] && run[2] == SETUP[2];
    AtStep(run, 0);
    assert At(run, 1) == INITIAL.(rules := RS.State(CUSTOMERS, map[], [], []));
    AtStep(run, 1);
    assert At(run, 2).rules.handlers == [RS.Arrived(RS.Provision("acc", "biz", "ada", PARALLEL, [RULE_TAX, RULE_VAT]))];
    AtStep(run, 2);
  }

  lemma AccountOpens(run: seq<Action>)
    requires SETUP <= run
    ensures At(run, 4) == State(RULES, OPEN, [], R.EMPTY)
  {
    ProvisioningReads(run);
    assert run[3] == SETUP[3];
    AtStep(run, 3);
    assert RS.CreateRules("acc", [RULE_TAX, RULE_VAT], RS.TIER_0) == RULES.rules;
  }

  lemma TwoBuckets()
    ensures R.ProvisionBucket(R.ProvisionBucket(R.EMPTY, TAX, "clabcdef1"), VAT, "clabcdef2") == R.Core(FUNDED, CUIDS, [])
  {
    var first := R.Core(T.State(map[TAX := A.ACTIVE], [], [], []), map[TAX := "clabcdef1"], []);
    assert R.ProvisionBucket(R.EMPTY, TAX, "clabcdef1") == first;
    assert "clabcdef2" !in first.cuids.Values by {
      assert "clabcdef1"[8] != "clabcdef2"[8];
    }
  }

  lemma BucketsOpen(run: seq<Action>)
    requires SETUP <= run
    ensures At(run, 6) == State(RULES, OPEN, [], R.Core(FUNDED, CUIDS, []))
  {
    AccountOpens(run);
    assert run[4] == SETUP[4] && run[5] == SETUP[5];
    BucketStep(run, 4, R.EMPTY, TAX, "clabcdef1");
    BucketStep(run, 5, R.ProvisionBucket(R.EMPTY, TAX, "clabcdef1"), VAT, "clabcdef2");
    TwoBuckets();
  }

  lemma BucketStep(run: seq<Action>, n: nat, core: R.Core, b: BucketId, cuid: string)
    requires n < |run| && At(run, n) == State(RULES, OPEN, [], core) && run[n] == Execution(R.DoProvisionBucket(b, cuid))
    ensures At(run, n + 1) == State(RULES, OPEN, [], R.ProvisionBucket(core, b, cuid))
  {
    AtStep(run, n);
  }

  /** The run is at this position, with this model in memory and nothing recorded. */
  function Looking(pc: W.Pc, model: ExecutionModel): State {
    State(RULES, OPEN.(workers := [W.Worker(INFLOW, pc)]), [Plan(model, [], None, 0)], R.Core(FUNDED, CUIDS, []))
  }

  lemma InflowDelivered(run: seq<Action>)
    requires SETUP <= run
    ensures At(run, 8) == Looking(W.NotSeen, SEQUENTIAL)
  {
    BucketsOpen(run);
    assert run[6] == SETUP[6] && run[7] == SETUP[7];
    AtStep(run, 6);
    assert At(run, 7) == Looking(W.Started, SEQUENTIAL);
    AtStep(run, 7);
  }

  lemma AccountFound(run: seq<Action>)
    requires SETUP <= run
    ensures At(run, 9) == Looking(W.Found(A.ACTIVE), PARALLEL)
  {
    InflowDelivered(run);
    assert run[8] == SETUP[8];
    AtStep(run, 8);
  }

  lemma InflowRecorded(run: seq<Action>)
    requires SETUP <= run
    ensures At(run, 10) == State(RULES, OPEN.(ledger := [ROW], workers := [W.Worker(INFLOW, W.Recorded(100))]),
                                 [Plan(PARALLEL, [], None, 0)], R.Core(FUNDED, CUIDS, []))
  {
    AccountFound(run);
    assert run[9] == SETUP[9];
    AtStep(run, 9);
    assert NewEntry([], "acc", "tx", 100, PENDING, 0, A.ACTIVE) == ROW;
    assert !HasRef([], "tx");
  }

  lemma BothFetched()
    ensures IsFetch(RULES, "acc", [0, 1]) && FetchedRules(RULES, [0, 1]) == MATCHED
  {
    assert IsActiveRule(RULES, "acc", 0) && IsActiveRule(RULES, "acc", 1);
    assert FetchOne(RULES, 0) == MATCHED[0] && FetchOne(RULES, 1) == MATCHED[1];
  }

  lemma TwoMatch(f: Fetched, g: Fetched, e: Event)
    requires Matches(f.definition, e) && Matches(g.definition, e)
    ensures MatchedRules([f, g], e) == [f, g]
  {
    assert [f, g][..1] == [f] && [f][..0] == [];
    assert MatchedRules([f], e) == [f];
  }

  lemma RulesMatch()
    ensures Fired(PARALLEL, MATCHED, InflowEvent(100, 100)) == MATCHED
  {
    TwoMatch(MATCHED[0], MATCHED[1], InflowEvent(100, 100));
    assert MATCHED == [MATCHED[0], MATCHED[1]];
  }

  lemma RulesEvaluated(run: seq<Action>)
    requires SETUP <= run
    ensures At(run, 11) == State(RULES, EVALUATED, [Plan(PARALLEL, MATCHED, None, 0)], R.Core(FUNDED, CUIDS, []))
  {
    InflowRecorded(run);
    BothFetched();
    RulesMatch();
    assert run[10] == SETUP[10];
    AtStep(run, 10);
  }

  lemma FirstRuleStarts(run: seq<Action>)
    requires SETUP <= run
    ensures At(run, 13) == Ready(FUNDED, [Started(0, TASK_TAX)])
  {
    RulesEvaluated(run);
    assert run[11] == SETUP[11] && run[12] == SETUP[12];
    AtStep(run, 11);
    assert RowOf([ROW], "tx") == Some(0);
    assert At(run, 12) == State(RULES, EVALUATED, Planned(0), R.Core(FUNDED, CUIDS, []));
    AtStep(run, 12);
    assert !Busy(At(run, 12), 0);
  }

  // ----- Single steps on the treasury and the executions

  const REF := "alloc_" + "tx" + "_" + "clabcdef"

  lemma SharedReference(core: R.Core)
    requires core.cuids == CUIDS
    ensures R.RefOf(core, TASK_TAX) == REF == R.RefOf(core, TASK_VAT)
    ensures R.AmountOf(TASK_TAX) == Some(60) && R.AmountOf(TASK_VAT) == Some(40)
  {
    assert "clabcdef1"[..8] == "clabcdef" == "clabcdef2"[..8];
  }

  const CREDITED := Entry(TAX, CREDIT, 60, 60, REF, Allocation("tx"))

  function Decided(attempt: nat): R.Execution {
    Started(0, TASK_TAX).(flight := R.Decided(attempt, TASK_TAX, 60))
  }

  lemma FirstDecides()
    ensures R.Decide(R.Core(FUNDED, CUIDS, [Started(0, TASK_TAX)]), 0) == R.Core(FUNDED, CUIDS, [Decided(0)])
  {
    SharedReference(R.Core(FUNDED, CUIDS, [Started(0, TASK_TAX)]));
  }

  /** The credit commits; the bucket's status plays no part. */
  lemma CreditCommits(treasury: T.State, x: R.Execution)
    requires TAX in treasury.buckets && treasury.entries == []
    requires x.flight.Decided? && x.flight.task == TASK_TAX && x.flight.amount == 60 && !x.credited
    ensures R.Credit(R.Core(treasury, CUIDS, [x]), 0, true)
         == R.Core(treasury.(entries := [CREDITED]), CUIDS,
                   [x.(flight := R.CreditDone(x.flight.attempt), credited := true)])
  {
    var core := R.Core(treasury, CUIDS, [x]);
    SharedReference(core);
    assert !HasReference([], REF);
    assert T.CreditEntry(core.treasury, TAX, 60, REF, "tx") == CREDITED;
  }

  lemma CreditedBalance(treasury: T.State)
    requires treasury.entries == [CREDITED]
    ensures T.Balance(treasury, TAX) == 60 && T.Balance(treasury, VAT) == 0
  {
    BalanceAppend([], CREDITED, TAX);
    BalanceAppend([], CREDITED, VAT);
    assert [] + [CREDITED] == [CREDITED];
  }

  const CREDITED_OPEN := T.State(BUCKETS, [CREDITED], [], [])

  const CLOSED_TAX: map<BucketId, A.AccountStatus> := map[TAX := A.CLOSED, VAT := A.ACTIVE]
  const SHUT := T.State(CLOSED_TAX, [], [], [T.Closing(TAX, T.Over)])

  /** A closing request that nothing interrupts: the bucket is ACTIVE and empty. */
  const CLOSING: seq<Action> := [
    Execution(R.DoElsewhere(T.DoClosing(T.Ask(TAX)))), Execution(R.DoElsewhere(T.DoClosing(T.ReadBalance(0)))),
    Execution(R.DoElsewhere(T.DoClosing(T.ReadReserved(0)))), Execution(R.DoElsewhere(T.DoClosing(T.WriteClosed(0))))]

  function Closing(progress: T.ClosingProgress): T.State {
    FUNDED.(closings := [T.Closing(TAX, progress)])
  }

  lemma ClosingSteps()
    ensures T.After(FUNDED, T.DoClosing(T.Ask(TAX))) == Closing(T.StatusRead)
    ensures T.After(Closing(T.StatusRead), T.DoClosing(T.ReadBalance(0))) == Closing(T.BalanceRead(0))
    ensures T.After(Closing(T.BalanceRead(0)), T.DoClosing(T.ReadReserved(0))) == Closing(T.FoundEmpty)
    ensures T.After(Closing(T.FoundEmpty), T.DoClosing(T.WriteClosed(0))) == SHUT
  {
  }

  lemma ReadyStep(run: seq<Action>, n: nat, treasury: T.State, executions: seq<R.Execution>, step: R.Step)
    requires n < |run| && At(run, n) == Ready(treasury, executions) && run[n] == Execution(step)
    requires !step.DoStartRetry? && (step.DoEnqueue? ==> step.execution < |executions| && executions[step.execution].worker == 0)
    ensures At(run, n + 1) == Ready(treasury, executions).(core := R.After(R.Core(treasury, CUIDS, executions), step))
  {
    AtStep(run, n);
  }

  lemma TreasuryStep(run: seq<Action>, n: nat, before: T.State, step: T.Action, after: T.State, x: R.Execution)
    requires n < |run| && At(run, n) == Ready(before, [x]) && run[n] == Execution(R.DoElsewhere(step)) && step.DoClosing?
    requires T.After(before, step) == after
    ensures At(run, n + 1) == Ready(after, [x])
  {
    ReadyStep(run, n, before, [x], R.DoElsewhere(step));
  }

  lemma TaxCloses(run: seq<Action>, n: nat, x: R.Execution)
    requires n + 4 <= |run| && run[n..n + 4] == CLOSING && At(run, n) == Ready(FUNDED, [x])
    ensures At(run, n + 4) == Ready(SHUT, [x])
  {
    assert run[n] == CLOSING[0] && run[n + 1] == CLOSING[1] && run[n + 2] == CLOSING[2] && run[n + 3] == CLOSING[3];
    ClosingSteps();
    TreasuryStep(run, n, FUNDED, T.DoClosing(T.Ask(TAX)), Closing(T.StatusRead), x);
    TreasuryStep(run, n + 1, Closing(T.StatusRead), T.DoClosing(T.ReadBalance(0)), Closing(T.BalanceRead(0)), x);
    TreasuryStep(run, n + 2, Closing(T.BalanceRead(0)), T.DoClosing(T.ReadReserved(0)), Closing(T.FoundEmpty), x);
    TreasuryStep(run, n + 3, Closing(T.FoundEmpty), T.DoClosing(T.WriteClosed(0)), SHUT, x);
  }

  /** A run that goes on with the first attempt. */
  lemma FirstDecidesAt(run: seq<Action>)
    requires SETUP <= run && |run| > 13 && run[13] == Execution(R.DoDecide(0))
    ensures At(run, 14) == Ready(FUNDED, [Decided(0)])
  {
    FirstRuleStarts(run);
    ReadyStep(run, 13, FUNDED, [Started(0, TASK_TAX)], R.DoDecide(0));
    FirstDecides();
  }

  function CreditDone(): R.Execution {
    Started(0, TASK_TAX).(flight := R.CreditDone(0), credited := true)
  }

  lemma FirstCreditsAt(run: seq<Action>)
    requires SETUP <= run && |run| > 14 && run[13] == Execution(R.DoDecide(0)) && run[14] == Execution(R.DoCredit(0, true))
    ensures At(run, 15) == Ready(CREDITED_OPEN, [CreditDone()])
  {
    FirstDecidesAt(run);
    ReadyStep(run, 14, FUNDED, [Decided(0)], R.DoCredit(0, true));
    CreditCommits(FUNDED, Decided(0));
  }

  // ----- A first attempt credits a closed bucket

  const CLOSED_BEFORE_CREDIT: seq<Action> :=
    SETUP + [Execution(R.DoDecide(0))] + CLOSING + [Execution(R.DoCredit(0, true))]

  lemma CreditsShut(run: seq<Action>, n: nat, x: R.Execution)
    requires n < |run| && At(run, n) == Ready(SHUT, [x]) && run[n] == Execution(R.DoCredit(0, true))
    requires x.flight.Decided? && x.flight.task == TASK_TAX && x.flight.amount == 60 && !x.credited
    ensures var t := At(run, n + 1).core.treasury; t.buckets == CLOSED_TAX && T.Balance(t, TAX) == 60
  {
    ReadyStep(run, n, SHUT, [x], R.DoCredit(0, true));
    CreditCommits(SHUT, x);
    CreditedBalance(SHUT.(entries := [CREDITED]));
  }

  /** The bucket is closed, empty, between the first attempt's status check and its credit. */
  lemma FirstAttemptCreditsClosedBucket()
    ensures var t := At(CLOSED_BEFORE_CREDIT, 19).core.treasury;
      t.buckets == CLOSED_TAX && T.Balance(t, TAX) == 60
  {
    var run := CLOSED_BEFORE_CREDIT;
    FirstDecidesAt(run);
    TaxCloses(run, 14, Decided(0));
    CreditsShut(run, 18, Decided(0));
  }

  // ----- A retry credits a closed bucket

  const CLOSED_BEFORE_RETRY: seq<Action> :=
    SETUP + [Execution(R.DoDecide(0)), Execution(R.DoCredit(0, false)), Execution(R.DoEnqueue(0))] + CLOSING
    + [Retry(0), Execution(R.DoDecide(0)), Execution(R.DoCredit(0, true))]

  function Waiting(): R.Execution {
    Started(0, TASK_TAX).(status := R.RETRYING, flight := R.Idle, job := Some(0))
  }

  function Retrying(): R.Execution {
    Waiting().(flight := R.Acting(1, TASK_TAX))
  }

  lemma RetryEnqueued(run: seq<Action>)
    requires SETUP <= run && |run| > 15 && run[13] == Execution(R.DoDecide(0))
    requires run[14] == Execution(R.DoCredit(0, false)) && run[15] == Execution(R.DoEnqueue(0))
    ensures At(run, 16) == Ready(FUNDED, [Waiting()])
  {
    FirstDecidesAt(run);
    ReadyStep(run, 14, FUNDED, [Decided(0)], R.DoCredit(0, false));
    var returned := Started(0, TASK_TAX).(status := R.RETRYING, flight := R.Returned);
    assert At(run, 15) == Ready(FUNDED, [returned]);
    ReadyStep(run, 15, FUNDED, [returned], R.DoEnqueue(0));
  }

  /** The retry looks the rule and the row up again. */
  lemma RetryStarts(run: seq<Action>, n: nat)
    requires n < |run| && At(run, n) == Ready(SHUT, [Waiting()]) && run[n] == Retry(0)
    ensures At(run, n + 1) == Ready(SHUT, [Retrying()])
  {
    AtStep(run, n);
    assert Lookup(Ready(SHUT, [Waiting()]), Waiting()) == Some(TASK_TAX);
  }

  lemma RetryDecides(run: seq<Action>, n: nat)
    requires n < |run| && At(run, n) == Ready(SHUT, [Retrying()]) && run[n] == Execution(R.DoDecide(0))
    ensures At(run, n + 1) == Ready(SHUT, [Waiting().(flight := R.Decided(1, TASK_TAX, 60))])
  {
    ReadyStep(run, n, SHUT, [Retrying()], R.DoDecide(0));
    SharedReference(R.Core(SHUT, CUIDS, [Retrying()]));
  }

  /** The bucket is closed, empty, while a retry waits; the retry never looks at the status. */
  lemma RetryCreditsClosedBucket()
    ensures var t := At(CLOSED_BEFORE_RETRY, 23).core.treasury;
      t.buckets == CLOSED_TAX && T.Balance(t, TAX) == 60
  {
    var run, decided := CLOSED_BEFORE_RETRY, Waiting().(flight := R.Decided(1, TASK_TAX, 60));
    RetryEnqueued(run);
    TaxCloses(run, 16, Waiting());
    RetryStarts(run, 20);
    RetryDecides(run, 21);
    CreditsShut(run, 22, decided);
  }

  // ----- An archived execution completes

  const CLOSED_BEFORE_MARK: seq<Action> := SETUP + [
    Execution(R.DoDecide(0)), Execution(R.DoCredit(0, true)), Execution(R.DoArchive("acc")), Execution(R.DoMark(0, true))]

  /** The account is closed between the credit and the COMPLETED update: ARCHIVED becomes COMPLETED. */
  lemma ArchiveCanBeOverwritten()
    ensures var x := CreditDone().(status := R.ARCHIVED);
      At(CLOSED_BEFORE_MARK, 16).core.executions == [x]
      && At(CLOSED_BEFORE_MARK, 17).core.executions == [x.(status := R.COMPLETED, flight := R.Idle)]
  {
    var run, treasury := CLOSED_BEFORE_MARK, CREDITED_OPEN;
    FirstCreditsAt(run);
    ReadyStep(run, 15, treasury, [CreditDone()], R.DoArchive("acc"));
    var archived := CreditDone().(status := R.ARCHIVED);
    assert R.ArchiveAll([CreditDone()], "acc") == [archived];
    ReadyStep(run, 16, treasury, [archived], R.DoMark(0, true));
  }

  // ----- The second of two buckets with equal id prefixes receives nothing

  const COMPETING: seq<Action> := SETUP + [
    Execution(R.DoDecide(0)), Execution(R.DoCredit(0, true)), Execution(R.DoMark(0, true)),
    DoBegin(0), Execution(R.DoDecide(1)), Execution(R.DoCredit(1, true)), Execution(R.DoMark(1, true))]

  function Completed(): R.Execution {
    Started(0, TASK_TAX).(status := R.COMPLETED, flight := R.Idle, credited := true)
  }

  lemma FirstCompletes()
    ensures At(COMPETING, 16) == Ready(CREDITED_OPEN, [Completed()])
  {
    var run, treasury := COMPETING, CREDITED_OPEN;
    FirstCreditsAt(run);
    ReadyStep(run, 15, treasury, [CreditDone()], R.DoMark(0, true));
  }

  function Both(x: R.Execution): R.Core {
    R.Core(CREDITED_OPEN, CUIDS, [Completed(), x])
  }

  lemma SecondStarts()
    ensures At(COMPETING, 17) == State(RULES, EVALUATED, Planned(2), Both(Started(1, TASK_VAT)))
  {
    FirstCompletes();
    AtStep(COMPETING, 16);
    assert !Busy(Ready(CREDITED_OPEN, [Completed()]), 0);
  }

  lemma SecondFindsRow()
    ensures var x := Started(1, TASK_VAT);
      && R.Decide(Both(x), 1) == Both(x.(flight := R.Decided(0, TASK_VAT, 40)))
      && R.Credit(Both(x.(flight := R.Decided(0, TASK_VAT, 40))), 1, true) == Both(x.(flight := R.CreditDone(0)))
  {
    var x := Started(1, TASK_VAT);
    SharedReference(Both(x));
    SharedReference(Both(x.(flight := R.Decided(0, TASK_VAT, 40))));
    assert HasReference([CREDITED], REF) by {
      assert [CREDITED][0].reference == REF;
    }
  }

  lemma BothStep(run: seq<Action>, n: nat, x: R.Execution, step: R.Step)
    requires n < |run| && At(run, n) == State(RULES, EVALUATED, Planned(2), Both(x)) && run[n] == Execution(step)
    requires !step.DoStartRetry? && !step.DoEnqueue?
    ensures At(run, n + 1) == State(RULES, EVALUATED, Planned(2), R.After(Both(x), step))
  {
    AtStep(run, n);
  }

  lemma SecondCompletes(run: seq<Action>)
    requires |run| > 19 && At(run, 17) == State(RULES, EVALUATED, Planned(2), Both(Started(1, TASK_VAT)))
    requires run[17] == Execution(R.DoDecide(1)) && run[18] == Execution(R.DoCredit(1, true))
    requires run[19] == Execution(R.DoMark(1, true))
    ensures At(run, 20).core == Both(Started(1, TASK_VAT).(status := R.COMPLETED, flight := R.Idle))
  {
    var x := Started(1, TASK_VAT);
    SecondFindsRow();
    BothStep(run, 17, x, R.DoDecide(1));
    BothStep(run, 18, x.(flight := R.Decided(0, TASK_VAT, 40)), R.DoCredit(1, true));
    BothStep(run, 19, x.(flight := R.CreditDone(0)), R.DoMark(1, true));
    assert R.Mark(Both(x.(flight := R.CreditDone(0))), 1, true) == Both(x.(status := R.COMPLETED, flight := R.Idle));
  }

  /** Both releases end COMPLETED, but 40 of the 100 kobo never reach a bucket. */
  lemma CompetitorLosesItsShare()
    ensures var c := At(COMPETING, 20).core;
      && |c.executions| == 2 && c.executions[0].status == R.COMPLETED && c.executions[1].status == R.COMPLETED
      && c.executions[1].task == TASK_VAT && R.AmountOf(TASK_VAT) == Some(40)
      && c.treasury.entries == [CREDITED] && T.Balance(c.treasury, TAX) == 60 && T.Balance(c.treasury, VAT) == 0
  {
    SecondStarts();
    SecondCompletes(COMPETING);
    CreditedBalance(CREDITED_OPEN);
    SharedReference(Both(Started(1, TASK_VAT)));
  }
}
