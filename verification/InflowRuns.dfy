/** Two concrete runs of the webhook worker: an eventId that is evaluated twice, and an inflow that a crash loses. */
module InflowRuns {
  import opened Wrappers
  import opened AccountStatuses
  import opened RuleEngine
  import opened AccountLedger
  import opened InflowWorker
  import opened InflowSafety

  /** The state before action n. */
  function At(run: seq<Action>, n: nat): State
    requires n <= |run|
  {
    Run(INITIAL, run[..n])
  }

  lemma AtStep(run: seq<Action>, n: nat)
    requires n < |run|
    ensures At(run, n + 1) == After(At(run, n), run[n])
  {
    RunSnoc(INITIAL, run[..n], run[n]);
    assert run[..n] + [run[n]] == run[..n + 1];
  }

  const FIRST := Payload("event", "tx-1", "acc", 100, None)
  const SECOND := Payload("event", "tx-2", "acc", 100, None)

  const OPEN: map<string, AccountStatus> := map["acc" := ACTIVE]

  // ----- The eventId does not gate inflows

  const ONE_EVENT_TWICE: seq<Action> := [
    OpenAccount("acc"), Deliver(FIRST), Deliver(SECOND), Work(0, true), Work(1, true),
    Work(0, true), Work(0, true), Work(0, true), Work(0, true), Work(0, true),
    Work(1, true), Work(1, true), Work(1, true)]

  const ROW_1 := LedgerEntry("acc", "tx-1", 100, 100, MATCHED, 0, ACTIVE)
  const EVALUATION_1 := Evaluation(0, FIRST, InflowEvent(100, 100))

  lemma BothStart()
    ensures At(ONE_EVENT_TWICE, 5) == State(OPEN, [], map[], [Worker(FIRST, NotSeen), Worker(SECOND, NotSeen)], [])
  {
    var run := ONE_EVENT_TWICE;
    AtStep(run, 0);
    AtStep(run, 1);
    AtStep(run, 2);
    assert At(run, 3) == State(OPEN, [], map[], [Worker(FIRST, Started), Worker(SECOND, Started)], []);
    AtStep(run, 3);
    AtStep(run, 4);
  }

  lemma FirstRecords()
    ensures At(ONE_EVENT_TWICE, 7)
         == State(OPEN, [ROW_1.(reconciliation := PENDING)], map[], [Worker(FIRST, Recorded(100)), Worker(SECOND, NotSeen)], [])
  {
    var run := ONE_EVENT_TWICE;
    BothStart();
    AtStep(run, 5);
    assert At(run, 6) == State(OPEN, [], map[], [Worker(FIRST, Found(ACTIVE)), Worker(SECOND, NotSeen)], []);
    AtStep(run, 6);
    assert NewEntry([], "acc", "tx-1", 100, PENDING, 0, ACTIVE) == ROW_1.(reconciliation := PENDING);
  }

  lemma FirstFinishes()
    ensures At(ONE_EVENT_TWICE, 10)
         == State(OPEN, [ROW_1], map["event" := 0], [Worker(FIRST, Done), Worker(SECOND, NotSeen)], [EVALUATION_1])
  {
    var run := ONE_EVENT_TWICE;
    FirstRecords();
    AtStep(run, 7);
    AtStep(run, 8);
    assert At(run, 9) == State(OPEN, [ROW_1], map[], [Worker(FIRST, Reconciled), Worker(SECOND, NotSeen)], [EVALUATION_1]);
    AtStep(run, 9);
  }

  /** Two deliveries with one eventId and two transactions: the first is done and its eventId is in the table before
      the second has read its account, and yet both are evaluated. */
  lemma OneEventEvaluatedTwice()
    ensures var before, after := At(ONE_EVENT_TWICE, 10), At(ONE_EVENT_TWICE, 13);
      && "event" in before.processed && before.evaluations == [EVALUATION_1] 
      && before.workers == [Worker(FIRST, Done), Worker(SECOND, NotSeen)]
      && after.evaluations == [EVALUATION_1, Evaluation(1, SECOND, InflowEvent(100, 200))]
  {
    var run := ONE_EVENT_TWICE;
    FirstFinishes();
    AtStep(run, 10);
    AtStep(run, 11);
    assert InflowTotal([ROW_1], "acc") == 100 by {
      InflowTotalAppend([], ROW_1, "acc");
      assert [] + [ROW_1] == [ROW_1];
    }
    assert !HasRef([ROW_1], "tx-2");
    assert At(run, 12).workers[1] == Worker(SECOND, Recorded(200));
    AtStep(run, 12);
  }

  // ----- A crash loses an inflow

  const CRASH_AFTER_RECORDING: seq<Action> := [
    OpenAccount("acc"), Deliver(FIRST), Work(0, true), Work(0, true), Work(0, true), Crash(0),
    Deliver(FIRST), Work(1, true), Work(1, true), Work(1, true)]

  lemma CrashesRecorded()
    ensures At(CRASH_AFTER_RECORDING, 6)
         == State(OPEN, [ROW_1.(reconciliation := PENDING)], map[], [Worker(FIRST, Dead)], [])
  {
    var run := CRASH_AFTER_RECORDING;
    AtStep(run, 0);
    AtStep(run, 1);
    AtStep(run, 2);
    AtStep(run, 3);
    assert At(run, 4) == State(OPEN, [], map[], [Worker(FIRST, Found(ACTIVE))], []);
    AtStep(run, 4);
    assert NewEntry([], "acc", "tx-1", 100, PENDING, 0, ACTIVE) == ROW_1.(reconciliation := PENDING);
    AtStep(run, 5);
  }

  /** The run dies between recording and evaluating; the redelivery conflicts at the ledger write and is discarded.
      The row stays PENDING, and no continuation ever evaluates it. */
  lemma RedeliveryCannotRepairCrash(later: seq<Action>)
    ensures var t := At(CRASH_AFTER_RECORDING, 10);
      t.workers == [Worker(FIRST, Dead), Worker(FIRST, Done)] && t.evaluations == [] && |t.ledger| == 1 && Lost(t, 0)
    ensures !EvaluatedRef(Run(At(CRASH_AFTER_RECORDING, 10), later), "tx-1")
  {
    var run := CRASH_AFTER_RECORDING;
    CrashesRecorded();
    AtStep(run, 6);
    AtStep(run, 7);
    AtStep(run, 8);
    var row := ROW_1.(reconciliation := PENDING);
    assert At(run, 9) == State(OPEN, [row], map[], [Worker(FIRST, Dead), Worker(FIRST, Found(ACTIVE))], []);
    assert HasRef([row], "tx-1") by {
      assert [row][0].transactionRef == "tx-1";
    }
    AtStep(run, 9);
    RunKeepsInv(INITIAL, run[..10]);
    LostForever(At(run, 10), later, 0);
  }
}
