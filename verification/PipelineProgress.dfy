/** Progress: what a healthy environment lets the pipeline finish. From any reachable state a worker run that has
    evaluated can execute its whole plan, and a release that failed for now can be retried to its end. */
module PipelineProgress {
  import opened Wrappers
  import A = AccountStatuses
  import opened BucketLedger
  import opened RuleEngine
  import opened AccountLedger
  import W = InflowWorker
  import WS = InflowSafety
  import R = Release
  import S = ReleaseSafety
  import RO = ReleaseOutcomes
  import opened Pipeline
  import opened PipelineLinks

  /** Run w has evaluated an inflow, holds its ledger row and is between two of its rules. */
  ghost predicate BetweenRules(s: State, w: nat) {
    && w < |s.inflows.workers| && w < |s.plans| && s.inflows.workers[w].pc == W.Evaluated(true)
    && s.plans[w].record.Some? && !Busy(s, w)
  }

  /** A release to an existing ACTIVE bucket of the business that names an amount. */
  ghost predicate Payable(s: State, f: Fetched) {
    && f.definition.action.ReleaseFunds?
    && var p := f.definition.action.payload;
       var b := BucketId(f.businessId, p.destinationAccountRef);
       && p.destinationAccountRef != "" && b in s.core.treasury.buckets && s.core.treasury.buckets[b] == A.ACTIVE
       && (p.percentage.Some? || p.amountKobo.Some?)
  }

  /** Nothing but the treasury ledger, the executions and run w's place in its plan differs from s to t. */
  ghost predicate OnlyExecutes(s: State, t: State, w: nat) {
    && t.rules == s.rules && t.inflows == s.inflows && t.core.cuids == s.core.cuids
    && t.core.treasury.buckets == s.core.treasury.buckets
    && w < |s.plans| && |t.plans| == |s.plans| && t.plans == s.plans[w := s.plans[w].(next := t.plans[w].next)]
    && |s.core.executions| <= |t.core.executions|
    && t.core.executions[..|s.core.executions|] == s.core.executions
  }

  // ----- Steps on one execution

  lemma AttemptSteps(s: State, k: nat, commits: bool)
    ensures Run(s, [Execution(R.DoDecide(k))] + [Execution(R.DoCredit(k, commits))] + [Execution(R.DoMark(k, true))])
         == s.(core := RO.ToTheEnd(s.core, k, commits))
  {
    var decide, credit, mark := Execution(R.DoDecide(k)), Execution(R.DoCredit(k, commits)), Execution(R.DoMark(k, true));
    var c := R.Decide(s.core, k);
    OnCore(s, R.DoDecide(k));
    OnCore(s.(core := c), R.DoCredit(k, commits));
    OnCore(s.(core := R.Credit(c, k, commits)), R.DoMark(k, true));
    ThreeSteps(s, decide, credit, mark);
  }

  lemma OnCore(s: State, step: R.Step)
    requires step.DoDecide? || step.DoCredit? || step.DoMark?
    ensures After(s, Execution(step)) == s.(core := R.After(s.core, step))
  {
  }

  lemma ThreeSteps(s: State, a: Action, b: Action, c: Action)
    ensures Run(s, [a] + [b] + [c]) == After(After(After(s, a), b), c)
  {
    RunSnoc(s, [], a);
    assert [] + [a] == [a];
    RunSnoc(s, [a], b);
    RunSnoc(s, [a] + [b], c);
  }

  lemma TwoSteps(s: State, a: Action, b: Action)
    ensures Run(s, [a] + [b]) == After(After(s, a), b)
  {
    RunSnoc(s, [], a);
    assert [] + [a] == [a];
    RunSnoc(s, [a], b);
  }

  lemma ToTheEndTouchesOne(c: R.Core, k: nat, commits: bool, j: nat)
    requires j < |c.executions| && j != k
    ensures |RO.ToTheEnd(c, k, commits).executions| == |c.executions|
    ensures RO.ToTheEnd(c, k, commits).executions[j] == c.executions[j]
  {
    S.StepTouchesOne(c, R.DoDecide(k), j);
    var c1 := R.Decide(c, k);
    S.StepTouchesOne(c1, R.DoCredit(k, commits), j);
    var c2 := R.Credit(c1, k, commits);
    S.StepTouchesOne(c2, R.DoMark(k, true), j);
  }

  lemma ToTheEndKeepsBuckets(c: R.Core, k: nat, commits: bool)
    ensures RO.ToTheEnd(c, k, commits).treasury.buckets == c.treasury.buckets && RO.ToTheEnd(c, k, commits).cuids == c.cuids
  {
  }

  // ----- One rule

  /** What executing a release of run w adds: one execution of that rule, resolved, and COMPLETED if payable. */
  ghost predicate Executed(s: State, t: State, w: nat, f: Fetched) {
    && |t.core.executions| == |s.core.executions| + 1
    && var x := t.core.executions[|s.core.executions|];
       && x.worker == w && x.rule == f.rule && x.flight == R.Idle
       && (Payable(s, f) ==> x.status == R.COMPLETED) && (!Payable(s, f) ==> x.status == R.FAILED)
  }

  lemma ExecuteRelease(s: State, w: nat, f: Fetched) returns (trace: seq<Action>)
    requires Inv(s) && BetweenRules(s, w) && s.plans[w].next < |s.plans[w].matched|
    requires f == s.plans[w].matched[s.plans[w].next] && f.definition.action.ReleaseFunds?
    ensures var t := Run(s, trace);
      Inv(t) && BetweenRules(t, w) && OnlyExecutes(s, t, w) && t.plans[w].next == s.plans[w].next + 1 && Executed(s, t, w, f)
  {
    var k := |s.core.executions|;
    var attempt := [Execution(R.DoDecide(k))] + [Execution(R.DoCredit(k, true))] + [Execution(R.DoMark(k, true))];
    trace := [DoBegin(w)] + attempt;
    ReleaseTrace(s, w, k);
    BegunExecution(s, w, f);
    BeginKeepsInv(s, w);
    AttemptEnds(s, Begin(s, w), w, f, k);
    AttemptKeepsInv(Begin(s, w), k);
  }

  lemma ReleaseTrace(s: State, w: nat, k: nat)
    ensures Run(s, [DoBegin(w)] + ([Execution(R.DoDecide(k))] + [Execution(R.DoCredit(k, true))] + [Execution(R.DoMark(k, true))]))
         == Begin(s, w).(core := RO.ToTheEnd(Begin(s, w).core, k, true))
  {
    RunCons(s, DoBegin(w), [Execution(R.DoDecide(k))] + [Execution(R.DoCredit(k, true))] + [Execution(R.DoMark(k, true))]);
    AttemptSteps(Begin(s, w), k, true);
  }

  lemma RunCons(s: State, a: Action, rest: seq<Action>)
    ensures Run(s, [a] + rest) == Run(After(s, a), rest)
  {
    assert ([a] + rest)[1..] == rest;
  }

  /** The execution that the worker inserts. */
  lemma BegunExecution(s: State, w: nat, f: Fetched)
    requires Inv(s) && BetweenRules(s, w) && s.plans[w].next < |s.plans[w].matched|
    requires f == s.plans[w].matched[s.plans[w].next] && f.definition.action.ReleaseFunds?
    ensures var t := Begin(s, w);
      && t.core.executions[..|s.core.executions|] == s.core.executions && |t.core.executions| == |s.core.executions| + 1
      && t.core.treasury == s.core.treasury && t.core.cuids == s.core.cuids && OnlyExecutes(s, t, w)
      && t.plans[w].next == s.plans[w].next + 1
      && var x := t.core.executions[|s.core.executions|];
         && x.worker == w && x.rule == f.rule && x.entry.Some?
         && x.flight == R.Acting(0, x.task) && x.task.fromLedger
         && x.task.businessId == f.businessId && x.task.payload == f.definition.action.payload
  {
    assert PlanSound(s, w);
    assert WS.Positioned(s.inflows, w);
    assert CanBegin(s, w);
  }

  lemma AttemptKeepsInv(s: State, k: nat)
    requires Inv(s)
    ensures Inv(s.(core := RO.ToTheEnd(s.core, k, true)))
  {
    var s1 := s.(core := R.Decide(s.core, k));
    ReleaseStepKeepsInv(s, Execution(R.DoDecide(k)), R.DoDecide(k));
    var s2 := s1.(core := R.Credit(s1.core, k, true));
    ReleaseStepKeepsInv(s1, Execution(R.DoCredit(k, true)), R.DoCredit(k, true));
    ReleaseStepKeepsInv(s2, Execution(R.DoMark(k, true)), R.DoMark(k, true));
  }

  /** The first attempt on the new execution, in a healthy environment. */
  lemma AttemptEnds(s: State, s1: State, w: nat, f: Fetched, k: nat)
    requires Inv(s1) && k == |s.core.executions| && |s1.core.executions| == k + 1 && BetweenRules(s, w)
    requires s1.core.executions[..k] == s.core.executions && OnlyExecutes(s, s1, w) && f.definition.action.ReleaseFunds?
    requires var x := s1.core.executions[k];
      && x.worker == w && x.rule == f.rule && x.entry.Some? && x.flight == R.Acting(0, x.task) && x.task.fromLedger
      && x.task.businessId == f.businessId && x.task.payload == f.definition.action.payload
    ensures var t := s1.(core := RO.ToTheEnd(s1.core, k, true));
      BetweenRules(t, w) && OnlyExecutes(s, t, w) && Executed(s, t, w, f)
  {
    var c := RO.ToTheEnd(s1.core, k, true);
    HealthyAttempt(s1.core, k);
    ToTheEndKeepsBuckets(s1.core, k, true);
    forall j: nat | j < k ensures |c.executions| == k + 1 && c.executions[j] == s.core.executions[j] {
      ToTheEndTouchesOne(s1.core, k, true, j);
      assert s1.core.executions[..k][j] == s.core.executions[j];
    }
    NotBusy(s, s1.(core := c), w, k);
  }

  lemma NotBusy(s: State, t: State, w: nat, k: nat)
    requires !Busy(s, w) && k == |s.core.executions| && |t.core.executions| == k + 1
    requires forall j: nat :: j < k ==> t.core.executions[j] == s.core.executions[j]
    requires t.core.executions[k].flight == R.Idle
    ensures !Busy(t, w)
  {
    forall j: nat | j < |t.core.executions| && t.core.executions[j].worker == w
      ensures !InFirstAttempt(t.core.executions[j].flight)
    {
      if j < k { assert !InFirstAttempt(s.core.executions[j].flight); }
    }
  }

  /** A first attempt for an inflow, with a database that commits. */
  lemma HealthyAttempt(c: R.Core, k: nat)
    requires S.CoreInv(c) && k < |c.executions| && c.executions[k].entry.Some?
    requires c.executions[k].flight == R.Acting(0, c.executions[k].task) && c.executions[k].task.fromLedger
    ensures var x, d := c.executions[k], RO.ToTheEnd(c, k, true);
            var p := x.task.payload;
            var b := BucketId(x.task.businessId, p.destinationAccountRef);
      && |d.executions| == |c.executions| && S.SameTask(x, d.executions[k]) && d.executions[k].flight == R.Idle
      && d.executions[k].status ==
           if p.destinationAccountRef != "" && b in c.treasury.buckets && c.treasury.buckets[b] == A.ACTIVE
              && (p.percentage.Some? || p.amountKobo.Some?)
           then R.COMPLETED else R.FAILED
  {
    var x := c.executions[k];
    RO.FirstAttemptOutcome(c, k, true);
    RO.CreditAmountNames(x.task.payload, x.task.inflow);
    if RO.NamesAmount(x.task.payload) {
      assert RO.Names(x.task.payload, x.task.inflow, R.AmountOf(x.task).value);
    }
    S.StepKeepsTask(c, R.DoDecide(k), k);
    S.StepKeepsTask(R.Decide(c, k), R.DoCredit(k, true), k);
    S.StepKeepsTask(R.Credit(R.Decide(c, k), k, true), R.DoMark(k, true), k);
  }

  lemma SkipRule(s: State, w: nat)
    requires Inv(s) && BetweenRules(s, w) && s.plans[w].next < |s.plans[w].matched|
    requires !s.plans[w].matched[s.plans[w].next].definition.action.ReleaseFunds?
    ensures var t := After(s, DoBegin(w));
      Inv(t) && BetweenRules(t, w) && OnlyExecutes(s, t, w) && t.plans[w].next == s.plans[w].next + 1 && t.core == s.core
  {
    BeginKeepsInv(s, w);
    assert CanBegin(s, w);
  }

  // ----- The whole plan

  /** Every execution from n on is resolved, belongs to run w, and is COMPLETED if it is one of a payable rule of the
      plan. */
  ghost predicate AllExecuted(s: State, t: State, w: nat, n: nat)
    requires w < |s.plans|
  {
    forall k: nat :: n <= k < |t.core.executions| ==>
      var x := t.core.executions[k];
      && x.worker == w && x.flight == R.Idle && (x.status == R.COMPLETED || x.status == R.FAILED)
      && exists f :: f in s.plans[w].matched && f.rule == x.rule && (x.status == R.COMPLETED <==> Payable(s, f))
  }

  lemma {:induction false} ExecutePlan(s: State, w: nat) returns (trace: seq<Action>)
    requires Inv(s) && BetweenRules(s, w)
    ensures var t := Run(s, trace);
      && Inv(t) && BetweenRules(t, w) && OnlyExecutes(s, t, w) && t.plans[w].next == |t.plans[w].matched|
      && AllExecuted(s, t, w, |s.core.executions|)
    decreases |s.plans[w].matched| - s.plans[w].next
  {
    assert PlanSound(s, w);
    if s.plans[w].next == |s.plans[w].matched| {
      trace := [];
    } else {
      var first := NextRule(s, w);
      var rest := ExecutePlan(Run(s, first), w);
      RunConcat(s, first, rest);
      PlanGoesOn(s, Run(s, first), Run(Run(s, first), rest), w, s.plans[w].matched[s.plans[w].next]);
      trace := first + rest;
    }
  }

  lemma NextRule(s: State, w: nat) returns (trace: seq<Action>)
    requires Inv(s) && BetweenRules(s, w) && s.plans[w].next < |s.plans[w].matched|
    ensures var t := Run(s, trace);
      && Inv(t) && BetweenRules(t, w) && OnlyExecutes(s, t, w) && t.plans[w].next == s.plans[w].next + 1
      && (t.core.executions == s.core.executions || Executed(s, t, w, s.plans[w].matched[s.plans[w].next]))
  {
    var f := s.plans[w].matched[s.plans[w].next];
    if f.definition.action.ReleaseFunds? {
      trace := ExecuteRelease(s, w, f);
    } else {
      SkipRule(s, w);
      trace := [DoBegin(w)];
      RunCons(s, DoBegin(w), []);
      assert [DoBegin(w)] + [] == [DoBegin(w)];
    }
  }

  lemma PlanGoesOn(s: State, t: State, u: State, w: nat, f: Fetched)
    requires OnlyExecutes(s, t, w) && OnlyExecutes(t, u, w) && f in s.plans[w].matched
    requires t.core.executions == s.core.executions || Executed(s, t, w, f)
    requires AllExecuted(t, u, w, |t.core.executions|)
    ensures OnlyExecutes(s, u, w) && AllExecuted(s, u, w, |s.core.executions|)
  {
    assert u.core.executions[..|s.core.executions|] == u.core.executions[..|t.core.executions|][..|s.core.executions|];
    forall k: nat | |s.core.executions| <= k < |u.core.executions|
      ensures var x := u.core.executions[k];
        && x.worker == w && x.flight == R.Idle && (x.status == R.COMPLETED || x.status == R.FAILED)
        && exists f :: f in s.plans[w].matched && f.rule == x.rule && (x.status == R.COMPLETED <==> Payable(s, f))
    {
      var x := u.core.executions[k];
      if k < |t.core.executions| {
        assert x == u.core.executions[..|t.core.executions|][k] == t.core.executions[k];
      } else {
        var g :| g in t.plans[w].matched && g.rule == x.rule && (x.status == R.COMPLETED <==> Payable(t, g));
        assert Payable(t, g) <==> Payable(s, g);
      }
    }
  }

  lemma {:induction false} RunConcat(s: State, a: seq<Action>, b: seq<Action>)
    ensures Run(s, a + b) == Run(Run(s, a), b)
    decreases |a|
  {
    if a == [] {
      assert a + b == b;
    } else {
      assert (a + b)[1..] == a[1..] + b;
      RunConcat(After(s, a[0]), a[1..], b);
    }
  }

  lemma {:induction false} RowFound(ledger: seq<LedgerEntry>, ref: string)
    requires HasRef(ledger, ref)
    ensures RowOf(ledger, ref).Some?
    decreases |ledger|
  {
    var n := |ledger| - 1;
    if ledger[n].transactionRef == ref {
    } else {
      var i :| 0 <= i < |ledger| && ledger[i].transactionRef == ref;
      assert ledger[..n][i].transactionRef == ref;
      RowFound(ledger[..n], ref);
    }
  }

  /** A run for which rules have fired can read its ledger row back and then start them. */
  lemma RowCanBeLoaded(s: State, w: nat)
    requires Inv(s) && w < |s.inflows.workers| && s.inflows.workers[w].pc == W.Evaluated(true) && !Busy(s, w)
    ensures BetweenRules(LoadRow(s, w), w)
  {
    assert WS.Positioned(s.inflows, w) && PlanSound(s, w);
    var p := s.inflows.workers[w].payload;
    var i :| 0 <= i < |s.inflows.ledger| && WS.IsRowOf(s.inflows.ledger[i], w, p);
    RowFound(s.inflows.ledger, p.transactionRef);
    assert LoadRow(s, w).core == s.core;
  }

  /** From every reachable state in which a run has evaluated an inflow and is between two rules, a healthy environment
      takes it to the end of its plan: every matched release that was left gets an execution, COMPLETED if its bucket is
      ACTIVE and it names an amount, FAILED otherwise. */
  lemma PlanCanComplete(actions: seq<Action>, n: nat, w: nat) returns (trace: seq<Action>)
    requires n <= |actions| && BetweenRules(At(actions, n), w)
    ensures var s, t := At(actions, n), Run(At(actions, n), trace);
      && OnlyExecutes(s, t, w) && t.plans[w].next == |t.plans[w].matched| && !Busy(t, w)
      && AllExecuted(s, t, w, |s.core.executions|)
  {
    RunKeepsInv(actions, n);
    trace := ExecutePlan(At(actions, n), w);
  }

  /** A run that has executed its plan, or for which no rule fired, goes on to reconcile its row and to remember its
      event. */
  lemma RunCanFinish(s: State, w: nat)
    requires Inv(s) && w < |s.inflows.workers| && s.inflows.workers[w].pc.Evaluated? && !Busy(s, w)
    requires s.plans[w].next == |s.plans[w].matched|
    ensures var t := After(After(s, Worker(W.Work(w, true))), Worker(W.Work(w, true)));
      && |t.inflows.workers| == |s.inflows.workers| && t.inflows.workers[w].pc == W.Done
      && s.inflows.workers[w].payload.eventId in t.inflows.processed && t.core == s.core
  {
    WS.AdvanceMoves(s.inflows, w, true);
    var s1 := After(s, Worker(W.Work(w, true)));
    assert s1.inflows.workers[w].pc == W.Reconciled && s1.core == s.core && |s1.plans| == |s.plans|;
    WS.AdvanceMoves(s1.inflows, w, true);
  }

  // ----- A release that failed for now

  /** The worker's enqueue, and then a whole attempt of the retry job. */
  function RetryTrace(k: nat): seq<Action> {
    [Execution(R.DoEnqueue(k))] + [Retry(k)]
    + ([Execution(R.DoDecide(k))] + [Execution(R.DoCredit(k, true))] + [Execution(R.DoMark(k, true))])
  }

  /** Execution k has just returned RETRYING to its living worker. */
  ghost predicate JustReturned(s: State, k: nat) {
    && k < |s.core.executions| && s.core.executions[k].flight == R.Returned
    && s.core.executions[k].status == R.RETRYING && s.core.executions[k].worker < |s.inflows.workers|
    && s.inflows.workers[s.core.executions[k].worker].pc == W.Evaluated(true)
  }

  /** The tables when the retry has looked up what it needs. */
  lemma RetryReads(s: State, k: nat)
    requires Inv(s) && JustReturned(s, k)
    ensures var x := s.core.executions[k];
      Run(s, [Execution(R.DoEnqueue(k))] + [Retry(k)])
      == s.(core := R.StartRetry(R.Enqueue(s.core, k), k, Some(x.task)))
  {
    var s1 := s.(core := R.Enqueue(s.core, k));
    TwoSteps(s, Execution(R.DoEnqueue(k)), Retry(k));
    assert S.Sound(s.core, s.core.executions[k]) && Linked(s, s.core.executions[k]);
    EnqueuesThenReads(s, k);
  }

  lemma EnqueuesThenReads(s: State, k: nat)
    requires JustReturned(s, k)
    ensures var s1 := s.(core := R.Enqueue(s.core, k));
      && After(s, Execution(R.DoEnqueue(k))) == s1
      && After(s1, Retry(k)) == s.(core := R.StartRetry(s1.core, k, Lookup(s, s.core.executions[k])))
  {
    var s1 := s.(core := R.Enqueue(s.core, k));
    assert Lookup(s1, s1.core.executions[k]) == Lookup(s, s.core.executions[k]);
  }

  /** From every reachable state in which a first attempt has returned RETRYING, a healthy environment enqueues it and
      its first retry completes it, whatever the status of the bucket by then. */
  lemma FailedReleaseCanComplete(actions: seq<Action>, n: nat, k: nat)
    requires n <= |actions| && JustReturned(At(actions, n), k)
    ensures var t := Run(At(actions, n), RetryTrace(k));
      k < |t.core.executions| && t.core.executions[k].status == R.COMPLETED && t.core.executions[k].job == None
  {
    var s := At(actions, n);
    RunKeepsInv(actions, n);
    RetryReads(s, k);
    var attempt := [Execution(R.DoDecide(k))] + [Execution(R.DoCredit(k, true))] + [Execution(R.DoMark(k, true))];
    RunConcat(s, [Execution(R.DoEnqueue(k))] + [Retry(k)], attempt);
    AttemptSteps(Run(s, [Execution(R.DoEnqueue(k))] + [Retry(k)]), k, true);
    RetryCompletes(s.core, k);
  }

  lemma RetryCompletes(c: R.Core, k: nat)
    requires S.CoreInv(c) && k < |c.executions| && c.executions[k].flight == R.Returned && c.executions[k].status == R.RETRYING
    ensures var d := RO.ToTheEnd(R.StartRetry(R.Enqueue(c, k), k, Some(c.executions[k].task)), k, true);
      k < |d.executions| && d.executions[k].status == R.COMPLETED && d.executions[k].job == None
  {
    var task := c.executions[k].task;
    assert S.Sound(c, c.executions[k]);
    S.EnqueueKeepsInv(c, k);
    RO.CreditAmountNames(task.payload, task.inflow);
    RO.RetryOutcome(R.Enqueue(c, k), k, task, true);
    assert RO.Names(task.payload, task.inflow, R.AmountOf(task).value);
  }
}
