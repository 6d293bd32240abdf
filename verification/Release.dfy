/** RELEASE_FUNDS as a protocol: the first attempt, the retry job and everything that can go wrong between
    reading the bucket, crediting it and recording that it was credited. The steps work on the tables of the
    treasury and of the executions; Pipeline supplies what they read from the rule and inflow tables. */
module Release {
  import opened Wrappers
  import A = AccountStatuses
  import opened BucketLedger
  import opened RuleEngine
  import opened Split
  import T = Treasury

  datatype ExecutionStatus = PENDING | COMPLETED | FAILED | RETRYING | ARCHIVED

  predicate Resolved(status: ExecutionStatus) {
    status == COMPLETED || status == FAILED || status == ARCHIVED
  }

  const MAX_ATTEMPTS: nat := 5

  /** What an attempt works with: the rule's payload and business, the transaction and the amount of the inflow.
      `fromLedger`: triggered by an inflow, not by a custom event. */
  datatype Task = Task(
    businessId: string,
    payload: ReleasePayload,
    transactionRef: string,
    inflow: nat,
    fromLedger: bool)

  /** The attempt in progress, if any, with what it holds in memory: 0 is the worker's own, n > 0 the n-th of the
      retry job. */
  datatype Flight =
    | Idle
    | Acting(attempt: nat, task: Task)                // rule and ledger row are read; the bucket comes next
    | Decided(attempt: nat, task: Task, amount: nat)  // the bucket passed the checks; the credit comes next
    | CreditDone(attempt: nat)                        // the credit committed; the COMPLETED update comes next
    | Returned                                        // RETRYING was returned; the worker's enqueue comes next

  /** `rule` and `entry` are the foreign keys to the rule and the ledger row; `job` holds attemptsMade of the retry
      job; `worker` is the worker run that executes the first attempt. The last two fields are history that no step
      reads: what the first attempt held in memory, and whether this execution wrote the ledger row. */
  datatype Execution = Execution(
    rule: nat,
    entry: Option<nat>,
    account: string,
    status: ExecutionStatus,
    flight: Flight,
    job: Option<nat>,
    worker: nat,
    task: Task,
    credited: bool)

  /** `cuids` holds the generated id of every bucket; allocation references use its first eight characters. */
  datatype Core = Core(treasury: T.State, cuids: map<BucketId, string>, executions: seq<Execution>)

  const EMPTY := Core(T.INITIAL, map[], [])

  // ----- The reference and the amount

  function Prefix(id: string): string {
    if |id| <= 8 then id else id[..8]
  }

  function AllocationReference(transactionRef: string, bucketId: string): string {
    "alloc_" + transactionRef + "_" + Prefix(bucketId)
  }

  /** Two allocations share a reference exactly when they come from one transaction and their bucket ids
      agree on eight characters. */
  lemma ReferenceInjective(tx: string, id: string, tx': string, id': string)
    requires |id| >= 8 && |id'| >= 8
    ensures AllocationReference(tx, id) == AllocationReference(tx', id') <==> tx == tx' && Prefix(id) == Prefix(id')
  {
    var a, b := AllocationReference(tx, id), AllocationReference(tx', id');
    if a == b {
      assert |a| == 6 + |tx| + 9 && |b| == 6 + |tx'| + 9;
      assert a[6..|a| - 9] == tx && b[6..|b| - 9] == tx';
      assert a[|a| - 8..] == Prefix(id) && b[|b| - 8..] == Prefix(id');
    }
  }

  function Target(task: Task): BucketId {
    BucketId(task.businessId, task.payload.destinationAccountRef)
  }

  function AmountOf(task: Task): Option<nat> {
    CreditAmount(task.payload, task.inflow)
  }

  function RefOf(s: Core, task: Task): string
    requires Target(task) in s.cuids
  {
    AllocationReference(task.transactionRef, s.cuids[Target(task)])
  }

  // ----- One attempt: decide, credit, mark

  datatype Decision = Fail | NothingToDo | Allocate(amount: nat)

  /** The checks of the first attempt. */
  function DecideFirst(s: Core, task: Task): Decision {
    if task.payload.destinationAccountRef == "" then Fail
    else if Target(task) !in s.treasury.buckets then Fail
    else if s.treasury.buckets[Target(task)] != A.ACTIVE then Fail
    else
      match AmountOf(task)
      case None => Fail
      case Some(amount) => if amount == 0 then NothingToDo else Allocate(amount)
  }

  /** The checks of a retry: the bucket's status and a zero amount are not looked at again. */
  function DecideRetry(s: Core, task: Task): Decision {
    if task.payload.destinationAccountRef == "" then Fail
    else if Target(task) !in s.treasury.buckets then Fail
    else
      match AmountOf(task)
      case None => Fail
      case Some(amount) => Allocate(amount)
  }

  function DecisionOf(s: Core, attempt: nat, task: Task): Decision {
    if attempt == 0 then DecideFirst(s, task) else DecideRetry(s, task)
  }

  function Put(s: Core, k: nat, x: Execution): Core
    requires k < |s.executions|
  {
    s.(executions := s.executions[k := x])
  }

  /** Everything an attempt does before the credit transaction. The bucket's status is not looked at again. */
  function Decide(s: Core, k: nat): Core {
    if k >= |s.executions| || !s.executions[k].flight.Acting? then s
    else
      var x := s.executions[k];
      match DecisionOf(s, x.flight.attempt, x.flight.task)
      case Fail => Put(s, k, x.(status := FAILED, flight := Idle, job := None))
      case NothingToDo => Put(s, k, x.(status := COMPLETED, flight := Idle))
      case Allocate(amount) => Put(s, k, x.(flight := Decided(x.flight.attempt, x.flight.task, amount)))
  }

  /** The credit goes through: the environment lets it commit, and a new row has a ledger entry to point to
      (a custom event passes an id that is no ledger row, which the foreign key refuses). */
  predicate CreditSucceeds(s: Core, task: Task, commits: bool) {
    && commits && Target(task) in s.cuids
    && (HasReference(s.treasury.entries, RefOf(s, task)) || task.fromLedger)
  }

  function CreditNow(s: Core, k: nat): Core
    requires k < |s.executions| && s.executions[k].flight.Decided? && Target(s.executions[k].flight.task) in s.cuids
  {
    var x := s.executions[k];
    var task := x.flight.task;
    var isNew := !HasReference(s.treasury.entries, RefOf(s, task));
    Put(s, k, x.(flight := CreditDone(x.flight.attempt), credited := x.credited || isNew)).(
      treasury := T.After(s.treasury, T.DoCredit(Target(task), x.flight.amount, RefOf(s, task), task.transactionRef)))
  }

  /** The first attempt of an inflow returns RETRYING to the worker; a custom event's worker ignores the result. */
  function AttemptThrows(x: Execution, attempt: nat): Execution {
    if attempt == 0 then x.(status := RETRYING, flight := if x.entry.Some? then Returned else Idle)
    else if attempt >= MAX_ATTEMPTS then x.(status := FAILED, flight := Idle, job := None)
    else x.(status := RETRYING, flight := Idle, job := Some(attempt))
  }

  /** The credit transaction of an attempt that has decided. */
  function Credit(s: Core, k: nat, commits: bool): Core {
    if k >= |s.executions| || !s.executions[k].flight.Decided? then s
    else if CreditSucceeds(s, s.executions[k].flight.task, commits) then CreditNow(s, k)
    else Put(s, k, AttemptThrows(s.executions[k], s.executions[k].flight.attempt))
  }

  /** The COMPLETED update after the credit. If it throws, the first attempt is caught and marked RETRYING;
      a retry attempt throws out of the job and counts as made. */
  function Mark(s: Core, k: nat, written: bool): Core {
    if k >= |s.executions| || !s.executions[k].flight.CreditDone? then s
    else
      var x := s.executions[k];
      var n := x.flight.attempt;
      if written then Put(s, k, x.(status := COMPLETED, flight := Idle, job := None))
      else if n == 0 then Put(s, k, AttemptThrows(x, 0))
      else Put(s, k, x.(flight := Idle, job := Some(n)))
  }

  // ----- Around the attempts

  /** The worker starts a matched rule: it inserts the execution and goes straight into the first attempt. */
  function Begin(s: Core, rule: nat, entry: Option<nat>, account: string, worker: nat, task: Task): Core {
    s.(executions := s.executions + [Execution(rule, entry, account, PENDING, Acting(0, task), None, worker, task, false)])
  }

  function Enqueue(s: Core, k: nat): Core {
    if k < |s.executions| && s.executions[k].flight == Returned
    then Put(s, k, s.executions[k].(flight := Idle, job := Some(0)))
    else s
  }

  predicate RetryDue(s: Core, k: nat) {
    k < |s.executions| && s.executions[k].flight == Idle && s.executions[k].job.Some?
    && s.executions[k].job.value < MAX_ATTEMPTS
  }

  /** An attempt of the retry job reads the execution together with its rule and its ledger row; `found` is what that
      gives to work with, None when no ledger row is attached. */
  function StartRetry(s: Core, k: nat, found: Option<Task>): Core {
    if !RetryDue(s, k) then s
    else
      var x := s.executions[k];
      if Resolved(x.status) then Put(s, k, x.(job := None))
      else if found.None? then Put(s, k, x.(status := FAILED, job := None))
      else Put(s, k, x.(flight := Acting(x.job.value + 1, found.value)))
  }

  /** An attempt of the retry job throws at the database, at its first read or later: nothing is written and the
      attempt counts. */
  function Throw(s: Core, k: nat): Core {
    if RetryDue(s, k) then Put(s, k, s.executions[k].(job := Some(s.executions[k].job.value + 1)))
    else if k < |s.executions| && (s.executions[k].flight.Acting? || s.executions[k].flight.Decided?)
            && s.executions[k].flight.attempt > 0
    then Put(s, k, s.executions[k].(flight := Idle, job := Some(s.executions[k].flight.attempt)))
    else s
  }

  function Crash(s: Core, k: nat): Core {
    if k < |s.executions| then Put(s, k, s.executions[k].(flight := Idle)) else s
  }

  function ArchiveOne(x: Execution, account: string): Execution {
    if x.account == account && (x.status == PENDING || x.status == RETRYING) then x.(status := ARCHIVED) else x
  }

  /** Closing an account archives its PENDING and RETRYING executions. */
  function ArchiveAll(executions: seq<Execution>, account: string): (r: seq<Execution>)
    ensures |r| == |executions|
    ensures forall k :: 0 <= k < |r| ==> r[k] == ArchiveOne(executions[k], account)
  {
    seq(|executions|, k requires 0 <= k < |executions| => ArchiveOne(executions[k], account))
  }

  function Archive(s: Core, account: string): Core {
    s.(executions := ArchiveAll(s.executions, account))
  }

  // ----- Buckets

  function ProvisionBucket(s: Core, b: BucketId, cuid: string): Core {
    if b in s.treasury.buckets || b in s.cuids || |cuid| < 8 || cuid in s.cuids.Values then s
    else s.(treasury := T.After(s.treasury, T.DoProvision(b)), cuids := s.cuids[b := cuid])
  }

  /** Transfers, settlements, closing a bucket. */
  function Elsewhere(s: Core, step: T.Action): Core {
    if step.DoProvision? || step.DoCredit? then s else s.(treasury := T.After(s.treasury, step))
  }

  datatype Step =
    | DoDecide(execution: nat)
    | DoCredit(execution: nat, commits: bool)
    | DoMark(execution: nat, written: bool)
    | DoEnqueue(execution: nat)
    | DoStartRetry(execution: nat, found: Option<Task>)
    | DoThrow(execution: nat)
    | DoCrash(execution: nat)
    | DoArchive(account: string)
    | DoProvisionBucket(bucket: BucketId, cuid: string)
    | DoElsewhere(step: T.Action)

  function After(s: Core, a: Step): Core {
    match a
    case DoDecide(k) => Decide(s, k)
    case DoCredit(k, commits) => Credit(s, k, commits)
    case DoMark(k, written) => Mark(s, k, written)
    case DoEnqueue(k) => Enqueue(s, k)
    case DoStartRetry(k, found) => StartRetry(s, k, found)
    case DoThrow(k) => Throw(s, k)
    case DoCrash(k) => Crash(s, k)
    case DoArchive(account) => Archive(s, account)
    case DoProvisionBucket(b, cuid) => ProvisionBucket(s, b, cuid)
    case DoElsewhere(step) => Elsewhere(s, step)
  }
}
