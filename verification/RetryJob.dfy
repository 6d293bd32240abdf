/** The retry processor: one queue job with bounded attempts, exact about how it can end. */
module RetryJob {
  import opened Wrappers
  import opened Release
  import opened ReleaseSafety

  datatype ActionResult = Succeeds | FailsForGood | FailsForNow

  /** What happens around one attempt: the account may be closed just before it, the database may throw
      during it (then nothing is written), and otherwise the rule action has a result. */
  datatype Attempt = Attempt(closedBefore: bool, databaseThrows: bool, result: ActionResult)

  /** What one call of the processor does: the status it leaves, and whether it throws so that the queue
      counts the attempt as failed. */
  datatype Processed = Processed(status: ExecutionStatus, throws: bool)

  function BeforeAttempt(status: ExecutionStatus, a: Attempt): ExecutionStatus {
    if a.closedBefore && (status == PENDING || status == RETRYING) then ARCHIVED else status
  }

  function Process(status: ExecutionStatus, attemptsMade: nat, maxAttempts: nat, a: Attempt): Processed {
    var found := BeforeAttempt(status, a);
    var currentAttempt := attemptsMade + 1;
    if a.databaseThrows then Processed(found, true)
    else if Resolved(found) then Processed(found, false)
    else if a.result == Succeeds then Processed(COMPLETED, false)
    else if a.result == FailsForGood || currentAttempt >= maxAttempts then Processed(FAILED, false)
    else Processed(RETRYING, true)
  }

  /** An action failure re-throws only with attempts left; the last attempt throws only because of the database. */
  lemma ThrowsOnLastAttempt(status: ExecutionStatus, attemptsMade: nat, maxAttempts: nat, a: Attempt)
    requires attemptsMade < maxAttempts
    ensures Process(status, attemptsMade, maxAttempts, a).throws && !a.databaseThrows ==> attemptsMade + 1 < maxAttempts
    ensures !Process(status, attemptsMade, maxAttempts, a).throws ==>
      Resolved(Process(status, attemptsMade, maxAttempts, a).status)
    ensures Resolved(status) ==> Process(status, attemptsMade, maxAttempts, a).status == status
  {
  }

  /** Status before attempt n, when all earlier attempts threw. */
  function StatusBefore(status: ExecutionStatus, maxAttempts: nat, attempts: nat -> Attempt, n: nat): ExecutionStatus {
    if n == 0 then status
    else Process(StatusBefore(status, maxAttempts, attempts, n - 1), n - 1, maxAttempts, attempts(n - 1)).status
  }

  predicate ThrowsAt(status: ExecutionStatus, maxAttempts: nat, attempts: nat -> Attempt, n: nat) {
    Process(StatusBefore(status, maxAttempts, attempts, n), n, maxAttempts, attempts(n)).throws
  }

  /** The life of a job. It makes at least one and at most maxAttempts attempts and stops at the first that does not
      throw; the dead-letter branch is taken exactly when all of them threw, and then the last one threw because
      of the database. A job that is not dead-lettered leaves its execution resolved. */
  method RunJob(initial: ExecutionStatus, maxAttempts: nat, attempts: nat -> Attempt)
    returns (status: ExecutionStatus, attemptsMade: nat, deadLetter: bool)
    requires maxAttempts >= 1
    ensures 1 <= attemptsMade <= maxAttempts
    ensures forall n :: 0 <= n < attemptsMade - 1 ==> ThrowsAt(initial, maxAttempts, attempts, n)
    ensures deadLetter <==> forall n :: 0 <= n < maxAttempts ==> ThrowsAt(initial, maxAttempts, attempts, n)
    ensures deadLetter ==> attemptsMade == maxAttempts && attempts(maxAttempts - 1).databaseThrows
    ensures !deadLetter ==> Resolved(status)
    ensures Resolved(initial) ==> status == initial
  {
    status, attemptsMade, deadLetter := initial, 0, false;
    while attemptsMade < maxAttempts
      invariant 0 <= attemptsMade <= maxAttempts && !deadLetter
      invariant status == StatusBefore(initial, maxAttempts, attempts, attemptsMade)
      invariant forall n :: 0 <= n < attemptsMade ==> ThrowsAt(initial, maxAttempts, attempts, n)
      invariant attemptsMade == maxAttempts ==> attempts(maxAttempts - 1).databaseThrows
      invariant Resolved(initial) ==> status == initial
      decreases maxAttempts - attemptsMade
    {
      var a := attempts(attemptsMade);
      ThrowsOnLastAttempt(status, attemptsMade, maxAttempts, a);
      var outcome := Process(status, attemptsMade, maxAttempts, a);
      status := outcome.status;
      attemptsMade := attemptsMade + 1;
      if !outcome.throws {
        assert !ThrowsAt(initial, maxAttempts, attempts, attemptsMade - 1);
        return;
      }
      assert ThrowsAt(initial, maxAttempts, attempts, attemptsMade - 1);
    }
    deadLetter := true;
  }

  /** When every attempt runs to its end, no job of an unresolved or resolved execution is ever dead-lettered. */
  lemma NoDeadLetterFromActions(initial: ExecutionStatus, maxAttempts: nat, attempts: nat -> Attempt)
    requires maxAttempts >= 1 && !attempts(maxAttempts - 1).databaseThrows
    ensures !ThrowsAt(initial, maxAttempts, attempts, maxAttempts - 1)
  {
    ThrowsOnLastAttempt(StatusBefore(initial, maxAttempts, attempts, maxAttempts - 1), maxAttempts - 1, maxAttempts,
                        attempts(maxAttempts - 1));
  }

  // ----- The job on the execution tables

  /** The result of the release that an attempt makes. */
  function ResultOf(s: Core, task: Task, commits: bool): ActionResult {
    if !DecideRetry(s, task).Allocate? then FailsForGood
    else if CreditSucceeds(s, task, commits) then Succeeds
    else FailsForNow
  }

  /** One attempt that nothing interrupts, made of the steps of Release: the account may be closed just before it;
      the database throws at the first read, or the attempt reads, decides, credits and marks. */
  function OneAttempt(s: Core, k: nat, task: Task, closed: bool, throws: bool, commits: bool): Core
    requires k < |s.executions|
  {
    var found := if closed then Archive(s, s.executions[k].account) else s;
    if throws then Throw(found, k)
    else Mark(Credit(Decide(StartRetry(found, k, Some(task)), k), k, commits), k, true)
  }

  /** `Process` is what those steps amount to: the same status, and the attempt counts as made exactly when it throws;
      otherwise the job is gone. */
  lemma AttemptIsProcess(s: Core, k: nat, task: Task, closed: bool, throws: bool, commits: bool)
    requires RetryDue(s, k)
    ensures var x, y := s.executions[k], OneAttempt(s, k, task, closed, throws, commits).executions[k];
            var p := Process(x.status, x.job.value, MAX_ATTEMPTS, Attempt(closed, throws, ResultOf(s, task, commits)));
      && |OneAttempt(s, k, task, closed, throws, commits).executions| == |s.executions|
      && y.status == p.status && y.flight == Idle
      && y.job == if p.throws then Some(x.job.value + 1) else None
  {
    var found := if closed then Archive(s, s.executions[k].account) else s;
    if !throws && !Resolved(found.executions[k].status) {
      RunsToItsEnd(found, k, task, commits);
      assert DecideRetry(found, task) == DecideRetry(s, task);
      assert CreditSucceeds(found, task, commits) == CreditSucceeds(s, task, commits);
    }
  }

  lemma RunsToItsEnd(s: Core, k: nat, task: Task, commits: bool)
    requires RetryDue(s, k) && !Resolved(s.executions[k].status)
    ensures var t := Mark(Credit(Decide(StartRetry(s, k, Some(task)), k), k, commits), k, true);
            var n := s.executions[k].job.value + 1;
      && |t.executions| == |s.executions| && t.executions[k].flight == Idle
      && match ResultOf(s, task, commits)
         case Succeeds => t.executions[k].status == COMPLETED && t.executions[k].job == None
         case FailsForGood => t.executions[k].status == FAILED && t.executions[k].job == None
         case FailsForNow =>
           && t.executions[k].status == (if n >= MAX_ATTEMPTS then FAILED else RETRYING)
           && t.executions[k].job == if n >= MAX_ATTEMPTS then None else Some(n)
  {
    var s1 := StartRetry(s, k, Some(task));
    assert s1.executions[k].flight == Acting(s.executions[k].job.value + 1, task);
    var s2 := Decide(s1, k);
    if DecideRetry(s, task).Allocate? {
      assert s2.executions[k].flight == Decided(s.executions[k].job.value + 1, task, DecideRetry(s, task).amount);
      assert CreditSucceeds(s2, task, commits) == CreditSucceeds(s, task, commits);
    }
  }

  /** The job has made all its attempts and the last one threw. */
  predicate DeadLettered(x: Execution) {
    x.job == Some(MAX_ATTEMPTS)
  }

  /** The last attempt of execution k is under way, or about to read. */
  predicate OnLastAttempt(s: Core, k: nat) {
    && k < |s.executions|
    && match s.executions[k].flight
       case Idle => s.executions[k].job == Some(MAX_ATTEMPTS - 1)
       case Acting(n, _) => n == MAX_ATTEMPTS
       case Decided(n, _, _) => n == MAX_ATTEMPTS
       case CreditDone(n) => n == MAX_ATTEMPTS
       case Returned => false
  }

  /** A step dead-letters a job if and only if the database throws during its last attempt; no result of the release
      does. */
  lemma DeadLetterExactlyWhen(s: Core, a: Step, k: nat)
    requires CoreInv(s) && k < |s.executions| && !DeadLettered(s.executions[k])
    ensures |After(s, a).executions| == |s.executions|
    ensures DeadLettered(After(s, a).executions[k]) <==>
      && OnLastAttempt(s, k)
      && (|| (a == DoThrow(k) && !s.executions[k].flight.CreditDone?)
          || (a == DoMark(k, false) && s.executions[k].flight.CreditDone?))
  {
    StepKeepsTask(s, a, k);
    match a
    case DoArchive(_) =>
    case DoProvisionBucket(_, _) =>
    case DoElsewhere(_) =>
    case _ => if a.execution == k { OwnDeadLetter(s, a, k); } else { StepTouchesOne(s, a, k); }
  }

  lemma OwnDeadLetter(s: Core, a: Step, k: nat)
    requires CoreInv(s) && k < |s.executions| && !DeadLettered(s.executions[k])
    requires !a.DoArchive? && !a.DoProvisionBucket? && !a.DoElsewhere? && a.execution == k
    requires |After(s, a).executions| == |s.executions|
    ensures DeadLettered(After(s, a).executions[k]) <==>
      && OnLastAttempt(s, k)
      && (|| (a == DoThrow(k) && !s.executions[k].flight.CreditDone?)
          || (a == DoMark(k, false) && s.executions[k].flight.CreditDone?))
  {
    assert Sound(s, s.executions[k]);
    match a
    case DoDecide(_) =>
    case DoCredit(_, _) =>
    case DoMark(_, _) =>
    case DoStartRetry(_, _) =>
    case DoThrow(_) =>
    case _ =>
  }
}
