/** What the pipeline guarantees in every run: exactly-once allocation, retries that repeat the first attempt,
    when a closed bucket is credited, and resolved executions. */
module PipelineSafety {
  import opened Wrappers
  import A = AccountStatuses
  import opened BucketLedger
  import T = Treasury
  import W = InflowWorker
  import R = Release
  import S = ReleaseSafety
  import opened Pipeline
  import opened PipelineLinks

  // ----- Exactly once

  /** In every run, across the first attempt, all retries, crashes and replays: no reference is credited twice,
      and a COMPLETED release of a positive amount has exactly one ledger row under its reference. */
  lemma AllocatedExactlyOnce(actions: seq<Action>, n: nat, k: nat)
    requires n <= |actions| && k < |At(actions, n).core.executions|
    requires R.Target(At(actions, n).core.executions[k].task) in At(actions, n).core.cuids
    ensures var c := At(actions, n).core;
            var x := c.executions[k];
            var rows := S.CountReference(c.treasury.entries, R.RefOf(c, x.task));
      rows <= 1 && (x.status == R.COMPLETED && R.AmountOf(x.task) != Some(0) ==> rows == 1)
  {
    var c := At(actions, n).core;
    RunKeepsInv(actions, n);
    assert S.Sound(c, c.executions[k]);
    S.UniqueMeansAtMostOne(c.treasury.entries, R.RefOf(c, c.executions[k].task));
  }

  /** In every run, for every COMPLETED release of a positive amount: it has written its own row, on its bucket and of
      its amount, if and only if no other execution of the same transaction, to a bucket whose id has the same first
      eight characters, has written one. Exactly one of the competitors is paid; the others are swallowed. */
  lemma PaidExactlyWhen(actions: seq<Action>, n: nat, k: nat)
    requires n <= |actions| && k < |At(actions, n).core.executions|
    requires At(actions, n).core.executions[k].status == R.COMPLETED
    requires R.AmountOf(At(actions, n).core.executions[k].task) != Some(0)
    ensures var c := At(actions, n).core;
            var x := c.executions[k];
      && R.Target(x.task) in c.cuids
      && (x.credited <==> forall j: nat :: j < |c.executions| && j != k && c.executions[j].credited ==> !Rivals(c, j, k))
      && (x.credited <==> exists e :: e in c.treasury.entries && S.Wrote(c, x, e))
  {
    RunKeepsInv(actions, n);
    CorePaidExactlyWhen(At(actions, n).core, k);
  }

  /** One transaction, and bucket ids that agree on eight characters. */
  ghost predicate Rivals(c: R.Core, j: nat, k: nat)
    requires j < |c.executions| && k < |c.executions|
  {
    var u, v := c.executions[j].task, c.executions[k].task;
    && u.transactionRef == v.transactionRef && R.Target(u) in c.cuids && R.Target(v) in c.cuids
    && R.Prefix(c.cuids[R.Target(u)]) == R.Prefix(c.cuids[R.Target(v)])
  }

  lemma CorePaidExactlyWhen(c: R.Core, k: nat)
    requires S.CoreInv(c) && S.OneWriter(c) && k < |c.executions|
    requires c.executions[k].status == R.COMPLETED && R.AmountOf(c.executions[k].task) != Some(0)
    ensures var x := c.executions[k];
      && R.Target(x.task) in c.cuids
      && (x.credited <==> forall j: nat :: j < |c.executions| && j != k && c.executions[j].credited ==> !Rivals(c, j, k))
      && (x.credited <==> exists e :: e in c.treasury.entries && S.Wrote(c, x, e))
  {
    assert S.Sound(c, c.executions[k]);
    S.WroteExactlyWhen(c, k);
    forall j: nat | j < |c.executions| && j != k && c.executions[j].credited
      ensures S.SameReference(c, j, k) <==> Rivals(c, j, k)
    {
      assert S.Sound(c, c.executions[j]);
      S.CompetesExactlyWhen(c, j, k);
    }
  }

  /** If no other execution competes for the reference, that row is its own: its bucket, its amount. */
  lemma CompletedReleaseIsOwnCredit(actions: seq<Action>, n: nat, k: nat)
    requires n <= |actions| && k < |At(actions, n).core.executions|
    requires R.Target(At(actions, n).core.executions[k].task) in At(actions, n).core.cuids
    requires S.SoleClaimant(At(actions, n).core, k)
    ensures var c := At(actions, n).core;
            var x := c.executions[k];
      x.status == R.COMPLETED && R.AmountOf(x.task) != Some(0) ==>
        exists e :: e in c.treasury.entries && e.reference == R.RefOf(c, x.task) && e.bucket == R.Target(x.task)
                    && Some(e.amountKobo) == R.AmountOf(x.task) && e.entryType == CREDIT
  {
    var c := At(actions, n).core;
    RunKeepsInv(actions, n);
    OwnCredit(c, k);
  }

  lemma OwnCredit(c: R.Core, k: nat)
    requires S.CoreInv(c) && k < |c.executions| && R.Target(c.executions[k].task) in c.cuids && S.SoleClaimant(c, k)
    ensures var x := c.executions[k];
      x.status == R.COMPLETED && R.AmountOf(x.task) != Some(0) ==>
        exists e :: e in c.treasury.entries && e.reference == R.RefOf(c, x.task) && e.bucket == R.Target(x.task)
                    && Some(e.amountKobo) == R.AmountOf(x.task) && e.entryType == CREDIT
  {
    var x := c.executions[k];
    assert S.Sound(c, x);
    if x.status == R.COMPLETED && R.AmountOf(x.task) != Some(0) {
      S.SoleClaimantWrote(c, k);
      var e :| e in c.treasury.entries && S.Wrote(c, x, e);
      assert e.reference == R.RefOf(c, x.task) && Some(e.amountKobo) == R.AmountOf(x.task);
    }
  }

  // ----- A retry repeats the first attempt

  /** Between two states of a run executions keep their keys and history, and buckets their ids. */
  lemma {:induction false} TasksForever(actions: seq<Action>, n: nat, m: nat)
    requires n <= m <= |actions|
    ensures S.TasksKept(At(actions, n).core, At(actions, m).core)
    ensures forall b :: b in At(actions, n).core.cuids ==>
      b in At(actions, m).core.cuids && At(actions, m).core.cuids[b] == At(actions, n).core.cuids[b]
    decreases m
  {
    if n == m {
    } else {
      TasksForever(actions, n, m - 1);
      TasksNext(actions, m - 1);
      KeptTwice(At(actions, n).core, At(actions, m - 1).core, At(actions, m).core);
    }
  }

  lemma TasksNext(actions: seq<Action>, n: nat)
    requires n < |actions|
    ensures S.TasksKept(At(actions, n).core, At(actions, n + 1).core)
    ensures forall b :: b in At(actions, n).core.cuids ==>
      b in At(actions, n + 1).core.cuids && At(actions, n + 1).core.cuids[b] == At(actions, n).core.cuids[b]
  {
    AtStep(actions, n);
    StepKeepsTasks(At(actions, n), actions[n]);
  }

  lemma KeptTwice(a: R.Core, b: R.Core, c: R.Core)
    requires S.TasksKept(a, b) && S.TasksKept(b, c)
    ensures S.TasksKept(a, c)
  {
    forall k | 0 <= k < |a.executions| ensures S.SameTask(a.executions[k], c.executions[k]) {
      assert S.SameTask(a.executions[k], b.executions[k]) && S.SameTask(b.executions[k], c.executions[k]);
    }
  }

  lemma StepKeepsTasks(s: State, a: Action)
    ensures S.TasksKept(s.core, After(s, a).core)
    ensures forall b :: b in s.core.cuids ==> b in After(s, a).core.cuids && After(s, a).core.cuids[b] == s.core.cuids[b]
  {
    if (a.Execution? || a.Retry?) && StepOf(s, a).Some? {
      S.StepKeepsTasks(s.core, StepOf(s, a).value);
      S.StepKeepsIds(s.core, StepOf(s, a).value);
    }
  }

  predicate HoldsTask(f: R.Flight, attempt: nat, task: R.Task) {
    (f.Acting? && f.attempt == attempt && f.task == task) || (f.Decided? && f.attempt == attempt && f.task == task)
  }

  /** The first attempt works with the rule and the row its worker holds in memory; a retry looks both up again by
      their keys, after any number of other steps. In every run the two work with the same bucket, reference and
      amount. */
  lemma RetryRepeatsFirstAttempt(actions: seq<Action>, n: nat, m: nat, k: nat, first: R.Task, attempt: nat, again: R.Task)
    requires n <= m <= |actions|
    requires k < |At(actions, n).core.executions| && HoldsTask(At(actions, n).core.executions[k].flight, 0, first)
    requires k < |At(actions, m).core.executions| && HoldsTask(At(actions, m).core.executions[k].flight, attempt, again)
    ensures again == first
    ensures R.Target(first) in At(actions, n).core.cuids ==>
      && R.Target(again) in At(actions, m).core.cuids
      && R.RefOf(At(actions, m).core, again) == R.RefOf(At(actions, n).core, first)
  {
    RunKeepsInv(actions, n);
    RunKeepsInv(actions, m);
    TasksForever(actions, n, m);
    var x, y := At(actions, n).core.executions[k], At(actions, m).core.executions[k];
    assert S.Sound(At(actions, n).core, x) && S.Sound(At(actions, m).core, y);
    assert S.SameTask(x, y);
  }

  /** A retry never credits zero: only positive releases ever become RETRYING. */
  lemma RetriesArePositive(actions: seq<Action>, n: nat, k: nat, attempt: nat, task: R.Task)
    requires n <= |actions| && k < |At(actions, n).core.executions| && attempt > 0
    requires HoldsTask(At(actions, n).core.executions[k].flight, attempt, task)
    ensures R.AmountOf(task).Some? && R.AmountOf(task).value > 0 && attempt <= 5 && task.fromLedger
  {
    RunKeepsInv(actions, n);
    assert S.Sound(At(actions, n).core, At(actions, n).core.executions[k]);
  }

  /** A release triggered by a custom event never writes a ledger row and gets no retry job: the row would have to
      point to an inflow, and the worker of a custom event does not enqueue. */
  lemma CustomEventNeverAllocates(actions: seq<Action>, n: nat, k: nat)
    requires n <= |actions| && k < |At(actions, n).core.executions|
    requires var s := At(actions, n);
      var w := s.core.executions[k].worker; w < |s.inflows.workers| && W.IsCustom(s.inflows.workers[w].payload)
    ensures var x := At(actions, n).core.executions[k]; !x.credited && x.job.None?
  {
    var s := At(actions, n);
    RunKeepsInv(actions, n);
    assert Linked(s, s.core.executions[k]);
    assert S.Sound(s.core, s.core.executions[k]);
  }

  // ----- Buckets that are not ACTIVE

  predicate Active(s: State, b: BucketId) {
    b in s.core.treasury.buckets && s.core.treasury.buckets[b] == A.ACTIVE
  }

  /** At step q the bucket is closed. */
  ghost predicate ClosedAt(actions: seq<Action>, q: nat, b: BucketId) {
    q < |actions| && Active(At(actions, q), b) && !Active(At(actions, q + 1), b)
  }

  /** At step p the first attempt of execution k reads the bucket, which is ACTIVE then, and decides to credit it. */
  ghost predicate ReadActiveAt(actions: seq<Action>, p: nat, k: nat, b: BucketId) {
    && p < |actions| && actions[p] == Execution(R.DoDecide(k)) && Active(At(actions, p), b)
    && k < |At(actions, p).core.executions| && At(actions, p).core.executions[k].flight.Acting?
    && At(actions, p).core.executions[k].flight.attempt == 0
  }

  /** No step reopens a bucket, and only closing ends being ACTIVE. */
  lemma TreasuryStatus(s: T.State, a: T.Action, b: BucketId)
    ensures b in s.buckets ==> b in T.After(s, a).buckets
    ensures b in s.buckets && s.buckets[b] != A.ACTIVE ==> T.After(s, a).buckets[b] != A.ACTIVE
    ensures b !in s.buckets && b in T.After(s, a).buckets ==> T.After(s, a).buckets[b] == A.ACTIVE
  {
  }

  lemma ReleaseStatus(c: R.Core, step: R.Step)
    ensures R.After(c, step).treasury == c.treasury || exists a :: R.After(c, step).treasury == T.After(c.treasury, a)
  {
    match step
    case DoCredit(k, commits) =>
      if k < |c.executions| && c.executions[k].flight.Decided? && R.CreditSucceeds(c, c.executions[k].flight.task, commits) {
        var task := c.executions[k].flight.task;
        var credit := T.DoCredit(R.Target(task), c.executions[k].flight.amount, R.RefOf(c, task), task.transactionRef);
        assert R.After(c, step).treasury == T.After(c.treasury, credit);
      }
    case DoProvisionBucket(b, _) =>
      assert R.After(c, step).treasury == c.treasury || R.After(c, step).treasury == T.After(c.treasury, T.DoProvision(b));
    case DoElsewhere(a) => assert R.After(c, step).treasury == c.treasury || R.After(c, step).treasury == T.After(c.treasury, a);
    case _ =>
  }

  /** A step of the pipeline is a step of the treasury, or leaves the treasury alone. */
  lemma TreasuryStep(s: State, a: Action)
    ensures After(s, a).core.treasury == s.core.treasury
         || exists step :: After(s, a).core.treasury == T.After(s.core.treasury, step)
  {
    if (a.Execution? || a.Retry?) && StepOf(s, a).Some? {
      ReleaseStatus(s.core, StepOf(s, a).value);
    }
  }

  /** Every run of the pipeline is a run of the treasury machine: all theorems about treasury runs hold of it. */
  lemma {:induction false} TreasuryRunOf(actions: seq<Action>, n: nat) returns (trace: seq<T.Action>)
    requires n <= |actions|
    ensures At(actions, n).core.treasury == T.Run(T.INITIAL, trace)
    decreases n
  {
    if n == 0 {
      trace := [];
    } else {
      trace := TreasuryRunOf(actions, n - 1);
      var s, t := At(actions, n - 1), At(actions, n);
      AtStep(actions, n - 1);
      TreasuryStep(s, actions[n - 1]);
      if t.core.treasury != s.core.treasury {
        var step :| t.core.treasury == T.After(s.core.treasury, step);
        T.RunSnoc(T.INITIAL, trace, step);
        trace := trace + [step];
      }
    }
  }

  lemma StatusStep(s: State, a: Action, b: BucketId)
    ensures var before, after := s.core.treasury.buckets, After(s, a).core.treasury.buckets;
      && (b in before ==> b in after) && (b in before && before[b] != A.ACTIVE ==> after[b] != A.ACTIVE)
      && (b !in before && b in after ==> after[b] == A.ACTIVE)
  {
    if (a.Execution? || a.Retry?) && StepOf(s, a).Some? {
      ReleaseStatus(s.core, StepOf(s, a).value);
      if After(s, a).core.treasury != s.core.treasury {
        var ta :| After(s, a).core.treasury == T.After(s.core.treasury, ta);
        TreasuryStatus(s.core.treasury, ta, b);
      }
    }
  }

  lemma InactiveNext(actions: seq<Action>, n: nat, b: BucketId)
    requires n < |actions| && b in At(actions, n).core.treasury.buckets && !Active(At(actions, n), b)
    ensures b in At(actions, n + 1).core.treasury.buckets && !Active(At(actions, n + 1), b)
  {
    AtStep(actions, n);
    StatusStep(At(actions, n), actions[n], b);
  }

  lemma {:induction false} StaysInactive(actions: seq<Action>, n: nat, m: nat, b: BucketId)
    requires n <= m <= |actions| && b in At(actions, n).core.treasury.buckets && !Active(At(actions, n), b)
    ensures b in At(actions, m).core.treasury.buckets && !Active(At(actions, m), b)
    decreases m
  {
    if n == m {
    } else {
      StaysInactive(actions, n, m - 1, b);
      InactiveNext(actions, m - 1, b);
    }
  }

  /** A bucket is created ACTIVE. */
  lemma InactiveBefore(actions: seq<Action>, n: nat, b: BucketId)
    requires n < |actions| && b in At(actions, n + 1).core.treasury.buckets && !Active(At(actions, n + 1), b)
    ensures b in At(actions, n).core.treasury.buckets
  {
    AtStep(actions, n);
    StatusStep(At(actions, n), actions[n], b);
  }

  lemma NoBucketsAtFirst(actions: seq<Action>, b: BucketId)
    ensures b !in At(actions, 0).core.treasury.buckets
  {
  }

  /** A bucket that is not ACTIVE was closed at some step; after p, if it was ACTIVE at p. */
  lemma {:induction false} WasClosed(actions: seq<Action>, p: nat, n: nat, b: BucketId) returns (q: nat)
    requires p <= n <= |actions| && b in At(actions, n).core.treasury.buckets && !Active(At(actions, n), b)
    requires p == 0 || Active(At(actions, p), b)
    ensures p <= q < n && ClosedAt(actions, q, b)
    decreases n
  {
    if n == 0 { NoBucketsAtFirst(actions, b); }
    var m := n - 1;
    InactiveBefore(actions, m, b);
    if Active(At(actions, m), b) {
      q := m;
    } else {
      q := WasClosed(actions, p, m, b);
    }
  }

  /** A first attempt about to credit has read the bucket as ACTIVE. */
  lemma {:induction false} ReadBefore(actions: seq<Action>, n: nat, k: nat, task: R.Task) returns (p: nat)
    requires n <= |actions| && k < |At(actions, n).core.executions|
    requires var f := At(actions, n).core.executions[k].flight; f.Decided? && f.attempt == 0 && f.task == task
    ensures p < n && ReadActiveAt(actions, p, k, R.Target(task)) && !ClosedAt(actions, p, R.Target(task))
    decreases n
  {
    var m := n - 1;
    AtStep(actions, m);
    if AboutToCredit(At(actions, m), k, task) {
      p := ReadBefore(actions, m, k, task);
    } else {
      DecidedNow(At(actions, m), actions[m], k, task);
      p := m;
    }
  }

  /** The first attempt of execution k has decided to credit. */
  predicate AboutToCredit(s: State, k: nat, task: R.Task) {
    k < |s.core.executions| && s.core.executions[k].flight.Decided?
    && s.core.executions[k].flight.attempt == 0 && s.core.executions[k].flight.task == task
  }

  lemma DecidedNow(s: State, a: Action, k: nat, task: R.Task)
    requires !AboutToCredit(s, k, task) && AboutToCredit(After(s, a), k, task)
    ensures a == Execution(R.DoDecide(k)) && Active(s, R.Target(task)) && After(s, a).core.treasury == s.core.treasury
    ensures k < |s.core.executions| && s.core.executions[k].flight == R.Acting(0, task)
  {
    assert a.Execution? || a.Retry?;
    var step := StepOf(s, a).value;
    CoreDecidedNow(s.core, step, k, task);
  }

  lemma CoreDecidedNow(c: R.Core, step: R.Step, k: nat, task: R.Task)
    requires k < |c.executions| && k < |R.After(c, step).executions|
    requires var f := c.executions[k].flight; !(f.Decided? && f.attempt == 0 && f.task == task)
    requires var f := R.After(c, step).executions[k].flight; f.Decided? && f.attempt == 0 && f.task == task
    ensures step == R.DoDecide(k) && R.After(c, step).treasury == c.treasury && c.executions[k].flight == R.Acting(0, task)
    ensures R.Target(task) in c.treasury.buckets && c.treasury.buckets[R.Target(task)] == A.ACTIVE
  {
    if !step.DoArchive? && !step.DoProvisionBucket? && !step.DoElsewhere? && step.execution != k {
      S.StepTouchesOne(c, step, k);
    }
  }

  /** Execution k credits a bucket at step n. */
  ghost predicate CreditsAt(actions: seq<Action>, n: nat, k: nat) {
    && n < |actions| && actions[n].Execution? && actions[n].step.DoCredit? && actions[n].step.execution == k
    && k < |At(actions, n).core.executions| && At(actions, n).core.executions[k].flight.Decided?
    && At(actions, n + 1).core.treasury != At(actions, n).core.treasury
  }

  /** The bucket was closed at q, before n; for a first attempt, after it had read the bucket as ACTIVE at p. */
  ghost predicate ClosedTooLate(actions: seq<Action>, n: nat, k: nat, p: nat, q: nat, b: BucketId, attempt: nat) {
    q < n && ClosedAt(actions, q, b) && (attempt == 0 ==> p < q && ReadActiveAt(actions, p, k, b))
  }

  /** In every run, exactly when a credit goes to a bucket that is not ACTIVE: the bucket was closed before, and the
      credit belongs to a retry, or to a first attempt that had read the bucket before it was closed. */
  lemma InactiveBucketCreditedExactlyWhen(actions: seq<Action>, n: nat, k: nat)
    requires CreditsAt(actions, n, k)
    ensures var x := At(actions, n).core.executions[k];
            var b := R.Target(x.flight.task);
      && b in At(actions, n).core.treasury.buckets
      && (!Active(At(actions, n), b) <==>
            exists p: nat, q: nat :: ClosedTooLate(actions, n, k, p, q, b, x.flight.attempt))
  {
    var s := At(actions, n);
    var x := s.core.executions[k];
    var b := R.Target(x.flight.task);
    RunKeepsInv(actions, n);
    assert S.Sound(s.core, x);
    if !Active(s, b) {
      var p := 0;
      if x.flight.attempt == 0 { p := ReadBefore(actions, n, k, x.flight.task); }
      var q := WasClosed(actions, p, n, b);
      assert ClosedTooLate(actions, n, k, p, q, b, x.flight.attempt);
    }
    if p: nat, q: nat :| ClosedTooLate(actions, n, k, p, q, b, x.flight.attempt) {
      ClosedStays(actions, q, n, b);
    }
  }

  lemma ClosedStays(actions: seq<Action>, q: nat, n: nat, b: BucketId)
    requires q < n <= |actions| && ClosedAt(actions, q, b)
    ensures !Active(At(actions, n), b)
  {
    AtStep(actions, q);
    StatusStep(At(actions, q), actions[q], b);
    StaysInactive(actions, q + 1, n, b);
  }

  // ----- Resolved executions

  /** Execution k has this resolved status and no attempt in flight. */
  predicate Settled(s: State, k: nat, status: R.ExecutionStatus) {
    && k < |s.core.executions| && R.Resolved(status)
    && s.core.executions[k].status == status && s.core.executions[k].flight == R.Idle
  }

  lemma StepKeepsSettled(s: State, a: Action, k: nat, status: R.ExecutionStatus)
    requires Inv(s) && Settled(s, k, status)
    ensures Settled(After(s, a), k, status)
  {
    if (a.Execution? || a.Retry?) && StepOf(s, a).Some? {
      S.ResolvedLeftExactlyWhen(s.core, StepOf(s, a).value, k);
    }
  }

  lemma SettledNext(actions: seq<Action>, n: nat, k: nat, status: R.ExecutionStatus)
    requires n < |actions| && Settled(At(actions, n), k, status)
    ensures Settled(At(actions, n + 1), k, status)
  {
    AtStep(actions, n);
    RunKeepsInv(actions, n);
    StepKeepsSettled(At(actions, n), actions[n], k, status);
  }

  /** With no attempt in flight, COMPLETED, FAILED and ARCHIVED are never left, in any run. */
  lemma {:induction false} ResolvedForever(actions: seq<Action>, n: nat, m: nat, k: nat, status: R.ExecutionStatus)
    requires n <= m <= |actions| && Settled(At(actions, n), k, status)
    ensures Settled(At(actions, m), k, status)
    decreases m
  {
    if n == m {
    } else {
      ResolvedForever(actions, n, m - 1, k, status);
      SettledNext(actions, m - 1, k, status);
    }
  }
}
