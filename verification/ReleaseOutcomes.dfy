/** What attempts at a release, the enqueueing of a retry and the archiving of executions do to the tables, said in
    terms of the rule's payload, the inflow, the bucket and the ledger alone. */
module ReleaseOutcomes {
  import opened Wrappers
  import A = AccountStatuses
  import opened BucketLedger
  import opened RuleEngine
  import opened Split
  import T = Treasury
  import opened Release
  import opened ReleaseSafety

  /** The amount a payload names for an inflow: the percentage of it, rounded down to whole kobo, or else the fixed
      amount, whatever the inflow. */
  ghost predicate Names(p: ReleasePayload, inflow: nat, amount: nat) {
    match p.percentage
    case Some(percentage) => 100 * amount <= percentage * inflow < 100 * amount + 100
    case None => p.amountKobo == Some(amount)
  }

  /** The computed amount is the one the payload names; there is none exactly when it names neither kind. */
  lemma CreditAmountNames(p: ReleasePayload, inflow: nat)
    ensures CreditAmount(p, inflow).None? <==> p.percentage.None? && p.amountKobo.None?
    ensures forall amount: nat :: Names(p, inflow, amount) <==> CreditAmount(p, inflow) == Some(amount)
  {
    if p.percentage.Some? { PercentageIsFloor(p.percentage.value, inflow); }
  }

  /** The destination of a release: a bucket of the account's business, by its reference. */
  ghost function Destination(task: Task): BucketId {
    BucketId(task.businessId, task.payload.destinationAccountRef)
  }

  /** The reference under which a release is recorded. */
  ghost function Reference(s: Core, task: Task): string
    requires Destination(task) in s.cuids && |s.cuids[Destination(task)]| >= 8
  {
    "alloc_" + task.transactionRef + "_" + s.cuids[Destination(task)][..8]
  }

  predicate NamesAmount(p: ReleasePayload) {
    p.percentage.Some? || p.amountKobo.Some?
  }

  /** The credit transaction succeeds: the database lets it, and the row exists or has an inflow to point to. */
  ghost predicate Creditable(s: Core, task: Task, commits: bool)
    requires Destination(task) in s.cuids && |s.cuids[Destination(task)]| >= 8
  {
    commits && (HasReference(s.treasury.entries, Reference(s, task)) || task.fromLedger)
  }

  /** From s to t the release is in the ledger: as before if its reference was there, else by one new row. */
  ghost predicate Recorded(s: Core, t: Core, task: Task, amount: nat)
    requires Destination(task) in s.cuids && |s.cuids[Destination(task)]| >= 8
  {
    var b := Destination(task);
    t.treasury.entries ==
      if HasReference(s.treasury.entries, Reference(s, task)) then s.treasury.entries
      else s.treasury.entries + [Entry(b, CREDIT, amount, T.Balance(s.treasury, b) + amount, Reference(s, task),
                                       Allocation(task.transactionRef))]
  }

  // ----- The first attempt

  function ToTheEnd(s: Core, k: nat, commits: bool): Core {
    Mark(Credit(Decide(s, k), k, commits), k, true)
  }

  /** The first attempt, undisturbed. It fails exactly when the destination is missing, unknown or not ACTIVE or the
      payload names no amount; an amount of zero completes without a row; otherwise the release is recorded and
      COMPLETED when the credit goes through, and RETRYING when not, upon which the worker of an inflow enqueues. */
  lemma FirstAttemptOutcome(s: Core, k: nat, commits: bool)
    requires CoreInv(s) && k < |s.executions| && s.executions[k].flight.Acting? && s.executions[k].flight.attempt == 0
    ensures var task, t := s.executions[k].flight.task, ToTheEnd(s, k, commits);
            var b := Destination(task);
      && |t.executions| == |s.executions|
      && t.executions[k].flight ==
           (if t.executions[k].status == RETRYING && s.executions[k].entry.Some? then Returned else Idle)
      && (t.executions[k].status == FAILED <==>
            !(task.payload.destinationAccountRef != "" && b in s.treasury.buckets && s.treasury.buckets[b] == A.ACTIVE
              && NamesAmount(task.payload)))
      && (t.executions[k].status == FAILED ==> t.treasury == s.treasury)
      && (t.executions[k].status != FAILED ==>
            && b in s.cuids && |s.cuids[b]| >= 8
            && forall amount: nat :: Names(task.payload, task.inflow, amount) ==>
                 if amount == 0 then t.executions[k].status == COMPLETED && t.treasury == s.treasury
                 else if Creditable(s, task, commits)
                 then t.executions[k].status == COMPLETED && Recorded(s, t, task, amount)
                 else t.executions[k].status == RETRYING && t.treasury == s.treasury)
  {
    var task := s.executions[k].flight.task;
    CreditAmountNames(task.payload, task.inflow);
    if DecideFirst(s, task).Allocate? {
      DecidedOutcome(s, k, task, DecideFirst(s, task).amount, 0, commits);
    }
  }

  /** From the decision on. */
  lemma DecidedOutcome(s: Core, k: nat, task: Task, amount: nat, attempt: nat, commits: bool)
    requires CoreInv(s) && k < |s.executions| && s.executions[k].flight == Acting(attempt, task)
    requires DecisionOf(s, attempt, task) == Allocate(amount) && Destination(task) in s.treasury.buckets
    ensures Destination(task) in s.cuids && |s.cuids[Destination(task)]| >= 8
    ensures var t := ToTheEnd(s, k, commits);
      if Creditable(s, task, commits)
      then |t.executions| == |s.executions| && t.executions[k].status == COMPLETED && t.executions[k].job == None
           && Recorded(s, t, task, amount)
      else t == Put(s, k, AttemptThrows(s.executions[k].(flight := Decided(attempt, task, amount)), attempt))
  {
    var s1 := Decide(s, k);
    assert s1 == Put(s, k, s.executions[k].(flight := Decided(attempt, task, amount)));
    assert RefOf(s, task) == Reference(s, task);
  }

  // ----- An attempt of the retry job

  /** A retry, undisturbed, with what its lookup found. It looks neither at the bucket's status nor for a zero amount;
      the fifth attempt that does not go through fails the execution. */
  lemma RetryOutcome(s: Core, k: nat, task: Task, commits: bool)
    requires CoreInv(s) && RetryDue(s, k) && !Resolved(s.executions[k].status)
    ensures var n, t := s.executions[k].job.value + 1, ToTheEnd(StartRetry(s, k, Some(task)), k, commits);
            var b := Destination(task);
      && |t.executions| == |s.executions|
      && (if !(task.payload.destinationAccountRef != "" && b in s.treasury.buckets && NamesAmount(task.payload))
          then t.executions[k].status == FAILED && t.executions[k].job == None && t.treasury == s.treasury
          else
            && b in s.cuids && |s.cuids[b]| >= 8
            && forall amount: nat :: Names(task.payload, task.inflow, amount) ==>
                 if Creditable(s, task, commits)
                 then t.executions[k].status == COMPLETED && t.executions[k].job == None && Recorded(s, t, task, amount)
                 else && t.treasury == s.treasury
                      && t.executions[k].status == (if n >= 5 then FAILED else RETRYING)
                      && t.executions[k].job == if n >= 5 then None else Some(n))
  {
    var n := s.executions[k].job.value + 1;
    var s1 := StartRetry(s, k, Some(task));
    assert s1 == Put(s, k, s.executions[k].(flight := Acting(n, task)));
    CreditAmountNames(task.payload, task.inflow);
    if DecideRetry(s, task).Allocate? {
      RetryDecidedOutcome(s, k, task, DecideRetry(s, task).amount, n, commits);
    }
  }

  lemma RetryDecidedOutcome(s: Core, k: nat, task: Task, amount: nat, n: nat, commits: bool)
    requires CoreInv(s) && k < |s.executions| && n > 0 && DecideRetry(s, task) == Allocate(amount)
    ensures Destination(task) in s.cuids && |s.cuids[Destination(task)]| >= 8
    ensures var s1 := Put(s, k, s.executions[k].(flight := Acting(n, task)));
            var t := ToTheEnd(s1, k, commits);
      if Creditable(s, task, commits)
      then |t.executions| == |s.executions| && t.executions[k].status == COMPLETED && t.executions[k].job == None
           && Recorded(s, t, task, amount)
      else |t.executions| == |s.executions| && t.treasury == s.treasury
           && t.executions[k] == AttemptThrows(s.executions[k].(flight := Decided(n, task, amount)), n)
  {
    var s1 := Put(s, k, s.executions[k].(flight := Acting(n, task)));
    assert Decide(s1, k) == Put(s1, k, s1.executions[k].(flight := Decided(n, task, amount)));
    assert RefOf(s, task) == Reference(s, task);
  }

  /** Nothing starts a sixth attempt, and every earlier one can start. */
  lemma RetryDueExactlyWhen(s: Core, k: nat)
    ensures RetryDue(s, k) <==>
      && k < |s.executions| && s.executions[k].flight == Idle
      && s.executions[k].job.Some? && s.executions[k].job.value < 5
  {
  }

  /** A job starts with no attempt made. */
  lemma EnqueueOutcome(s: Core, k: nat)
    requires k < |s.executions| && s.executions[k].flight == Returned
    ensures RetryDue(Enqueue(s, k), k)
    ensures Enqueue(s, k) == s.(executions := s.executions[k := s.executions[k].(flight := Idle, job := Some(0))])
  {
  }

  /** The update after the credit. Written, it completes the execution; lost, the first attempt becomes RETRYING, and an
      attempt of the job leaves the status as it is and counts. */
  lemma MarkOutcome(s: Core, k: nat, written: bool)
    requires k < |s.executions| && s.executions[k].flight.CreditDone?
    ensures var x := s.executions[k];
            var y :=
              if written then x.(status := COMPLETED, flight := Idle, job := None)
              else if x.flight.attempt == 0 then x.(status := RETRYING, flight := if x.entry.Some? then Returned else Idle)
              else x.(flight := Idle, job := Some(x.flight.attempt));
      Mark(s, k, written) == s.(executions := s.executions[k := y])
  {
  }

  /** A crash of an attempt loses the attempt and nothing else. */
  lemma CrashOutcome(s: Core, k: nat)
    requires k < |s.executions|
    ensures Crash(s, k) == s.(executions := s.executions[k := s.executions[k].(flight := Idle)])
  {
  }

  /** A throw at the database, at the first read of a retry or later, writes no status, and the attempt counts. */
  lemma ThrowOutcome(s: Core, k: nat)
    requires k < |s.executions|
    ensures var x := s.executions[k];
      && (RetryDue(s, k) ==> Throw(s, k) == s.(executions := s.executions[k := x.(job := Some(x.job.value + 1))]))
      && ((x.flight.Acting? || x.flight.Decided?) && x.flight.attempt > 0 ==>
            Throw(s, k) == s.(executions := s.executions[k := x.(flight := Idle, job := Some(x.flight.attempt))]))
  {
  }

  // ----- Closing an account

  /** Closing an account archives exactly its own PENDING and RETRYING executions. */
  lemma ArchiveOutcome(s: Core, account: string, k: nat)
    requires k < |s.executions|
    ensures |After(s, DoArchive(account)).executions| == |s.executions|
    ensures After(s, DoArchive(account)).treasury == s.treasury
    ensures var x, y := s.executions[k], After(s, DoArchive(account)).executions[k];
      if x.account == account && (x.status == PENDING || x.status == RETRYING)
      then y == x.(status := ARCHIVED)
      else y == x
  {
  }
}
