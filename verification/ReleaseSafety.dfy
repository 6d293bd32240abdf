/** What every step of RELEASE_FUNDS keeps: named buckets, unique references, executions that agree with the
    ledger, and a ledger explained by the executions. */
module ReleaseSafety {
  import opened Wrappers
  import opened BucketLedger
  import T = Treasury
  import I = Idempotency
  import opened Release

  // ----- The invariant

  ghost predicate Allocatable(s: Core, task: Task) {
    && task.payload.destinationAccountRef != "" && Target(task) in s.cuids
    && AmountOf(task).Some? && AmountOf(task).value > 0
  }

  ghost predicate Paid(s: Core, task: Task) {
    Target(task) in s.cuids && HasReference(s.treasury.entries, RefOf(s, task))
  }

  /** An attempt works with what the first attempt worked with; a retry is one of at most five, of an inflow. */
  ghost predicate FlightSound(s: Core, x: Execution) {
    match x.flight
    case Idle => true
    case Acting(n, task) =>
      task == x.task && n <= MAX_ATTEMPTS && (n > 0 ==> Allocatable(s, x.task) && x.task.fromLedger)
    case Decided(n, task, amount) =>
      && task == x.task && n <= MAX_ATTEMPTS && (n > 0 ==> x.task.fromLedger)
      && Allocatable(s, x.task) && AmountOf(x.task) == Some(amount)
    case CreditDone(n) =>
      n <= MAX_ATTEMPTS && (n > 0 ==> x.task.fromLedger) && Allocatable(s, x.task) && Paid(s, x.task)
    case Returned => Allocatable(s, x.task) && x.task.fromLedger
  }

  ghost predicate Sound(s: Core, x: Execution) {
    && FlightSound(s, x)
    && (x.entry.Some? <==> x.task.fromLedger)
    && (x.status == COMPLETED ==> AmountOf(x.task) == Some(0) || (Allocatable(s, x.task) && Paid(s, x.task)))
    && (x.status == RETRYING ==> Allocatable(s, x.task))
    && (x.job.Some? ==> Allocatable(s, x.task) && x.task.fromLedger && x.job.value <= MAX_ATTEMPTS)
    && (x.credited ==> Allocatable(s, x.task) && Paid(s, x.task) && x.task.fromLedger)
    && (x.status == COMPLETED || x.status == FAILED ==> x.flight == Idle)
  }

  predicate StartsWith(text: string, c: char) {
    text != "" && text[0] == c
  }

  /** Every allocation row was written by one of the executions, with its own bucket, amount and transaction. */
  ghost predicate Explained(s: Core, e: Entry) {
    if e.origin.Allocation? then
      exists k :: 0 <= k < |s.executions| && Wrote(s, s.executions[k], e)
    else !StartsWith(e.reference, 'a')
  }

  ghost predicate Wrote(s: Core, x: Execution, e: Entry) {
    && x.credited && Target(x.task) in s.cuids && AmountOf(x.task).Some?
    && e.reference == RefOf(s, x.task) && e.bucket == Target(x.task)
    && e.amountKobo == AmountOf(x.task).value && e.origin == Allocation(x.task.transactionRef) && e.entryType == CREDIT
  }

  /** Kobo of the transaction that this execution wrote to the ledger. */
  function CreditBy(x: Execution, tx: string): nat {
    if x.task.transactionRef == tx && x.credited && AmountOf(x.task).Some? then AmountOf(x.task).value else 0
  }

  function CreditedFor(executions: seq<Execution>, tx: string): nat {
    if executions == [] then 0
    else CreditedFor(executions[..|executions| - 1], tx) + CreditBy(executions[|executions| - 1], tx)
  }

  ghost predicate BucketsNamed(s: Core) {
    && s.cuids.Keys == s.treasury.buckets.Keys
    && (forall b :: b in s.cuids ==> |s.cuids[b]| >= 8)
    && (forall b, c :: b in s.cuids && c in s.cuids && s.cuids[b] == s.cuids[c] ==> b == c)
  }

  ghost predicate AllSound(s: Core) {
    forall k :: 0 <= k < |s.executions| ==> Sound(s, s.executions[k])
  }

  ghost predicate AllExplained(s: Core) {
    forall i :: 0 <= i < |s.treasury.entries| ==> Explained(s, s.treasury.entries[i])
  }

  ghost predicate Balanced(s: Core) {
    forall tx :: Total(AllocatedFrom(tx), s.treasury.entries) == CreditedFor(s.executions, tx)
  }

  ghost predicate CoreInv(s: Core) {
    BucketsNamed(s) && ReferencesUnique(s.treasury.entries) && AllSound(s) && AllExplained(s) && Balanced(s)
  }

  // ----- Tables only grow

  ghost predicate TablesGrow(s: Core, t: Core) {
    && s.treasury.entries <= t.treasury.entries
    && (forall b :: b in s.cuids ==> b in t.cuids && t.cuids[b] == s.cuids[b])
  }

  lemma SoundGrows(s: Core, t: Core, x: Execution)
    requires TablesGrow(s, t) && Sound(s, x)
    ensures Sound(t, x)
  {
    if Paid(s, x.task) {
      var i :| 0 <= i < |s.treasury.entries| && s.treasury.entries[i].reference == RefOf(s, x.task);
      assert t.treasury.entries[i].reference == RefOf(t, x.task);
    }
  }

  lemma OthersSound(s: Core, t: Core, k: nat)
    requires TablesGrow(s, t) && AllSound(s) && |t.executions| == |s.executions|
    requires forall j :: 0 <= j < |s.executions| && j != k ==> t.executions[j] == s.executions[j]
    requires k < |t.executions| ==> Sound(t, t.executions[k])
    ensures AllSound(t)
  {
    forall j | 0 <= j < |t.executions| ensures Sound(t, t.executions[j]) {
      if j != k { SoundGrows(s, t, s.executions[j]); }
    }
  }

  /** What an execution is never changes; having credited is never undone. */
  ghost predicate SameTask(x: Execution, y: Execution) {
    && y.rule == x.rule && y.entry == x.entry && y.account == x.account
    && y.worker == x.worker && y.task == x.task && (x.credited ==> y.credited)
  }

  ghost predicate TasksKept(s: Core, t: Core) {
    && |s.executions| <= |t.executions|
    && forall k :: 0 <= k < |s.executions| ==> SameTask(s.executions[k], t.executions[k])
  }

  lemma RowsStayExplained(s: Core, t: Core)
    requires AllExplained(s) && TablesGrow(s, t) && TasksKept(s, t)
    ensures forall i :: 0 <= i < |s.treasury.entries| ==> Explained(t, s.treasury.entries[i])
  {
    forall i | 0 <= i < |s.treasury.entries| ensures Explained(t, s.treasury.entries[i]) {
      var e := s.treasury.entries[i];
      assert Explained(s, e);
      if e.origin.Allocation? {
        var k :| 0 <= k < |s.executions| && Wrote(s, s.executions[k], e);
        assert SameTask(s.executions[k], t.executions[k]);
        assert Wrote(t, t.executions[k], e);
      }
    }
  }

  lemma {:induction false} CreditedUpdate(executions: seq<Execution>, k: nat, y: Execution, tx: string)
    requires k < |executions|
    ensures CreditedFor(executions[k := y], tx) == CreditedFor(executions, tx) - CreditBy(executions[k], tx) + CreditBy(y, tx)
    decreases |executions|
  {
    var n := |executions| - 1;
    if k == n {
      assert executions[k := y][..n] == executions[..n];
    } else {
      assert executions[k := y][..n] == executions[..n][k := y];
      CreditedUpdate(executions[..n], k, y, tx);
    }
  }

  lemma CreditedSnoc(executions: seq<Execution>, x: Execution, tx: string)
    ensures CreditedFor(executions + [x], tx) == CreditedFor(executions, tx) + CreditBy(x, tx)
  {
    assert (executions + [x])[..|executions|] == executions;
  }

  /** Replacing an execution by one that differs only in status, flight or job. */
  lemma PutKeepsInv(s: Core, k: nat, y: Execution)
    requires CoreInv(s) && k < |s.executions| && SameTask(s.executions[k], y) && y.credited == s.executions[k].credited
    requires Sound(s, y)
    ensures CoreInv(Put(s, k, y))
  {
    var t := Put(s, k, y);
    SoundGrows(s, t, y);
    OthersSound(s, t, k);
    RowsStayExplained(s, t);
    forall tx ensures Total(AllocatedFrom(tx), t.treasury.entries) == CreditedFor(t.executions, tx) {
      CreditedUpdate(s.executions, k, y, tx);
    }
  }

  // ----- The credit itself

  ghost predicate AboutToCredit(s: Core, k: nat) {
    CoreInv(s) && k < |s.executions| && s.executions[k].flight.Decided?
  }

  lemma AboutToCreditSound(s: Core, k: nat)
    requires AboutToCredit(s, k)
    ensures var x := s.executions[k];
      Sound(s, x) && x.flight.task == x.task && Allocatable(s, x.task) && AmountOf(x.task) == Some(x.flight.amount)
  {
    assert Sound(s, s.executions[k]);
  }

  lemma CreditRow(s: Core, k: nat)
    requires AboutToCredit(s, k) && !Paid(s, s.executions[k].task)
    ensures Allocatable(s, s.executions[k].task) && s.executions[k].flight.task == s.executions[k].task
    ensures var x := s.executions[k];
            var task := x.task;
      && CreditNow(s, k).treasury == s.treasury.(entries := s.treasury.entries
           + [T.CreditEntry(s.treasury, Target(task), x.flight.amount, RefOf(s, task), task.transactionRef)])
      && CreditNow(s, k).executions[k] == x.(flight := CreditDone(x.flight.attempt), credited := true)
  {
    AboutToCreditSound(s, k);
  }

  lemma FreshCreditBalanced(s: Core, k: nat)
    requires AboutToCredit(s, k) && !Paid(s, s.executions[k].task)
    ensures Allocatable(s, s.executions[k].task) && s.executions[k].flight.task == s.executions[k].task
    ensures Balanced(CreditNow(s, k))
  {
    AboutToCreditSound(s, k);
    var x := s.executions[k];
    var t := CreditNow(s, k);
    var e := T.CreditEntry(s.treasury, Target(x.task), x.flight.amount, RefOf(s, x.task), x.task.transactionRef);
    CreditRow(s, k);
    forall tx ensures Total(AllocatedFrom(tx), t.treasury.entries) == CreditedFor(t.executions, tx) {
      TotalAppend(AllocatedFrom(tx), s.treasury.entries, e);
      CreditedUpdate(s.executions, k, t.executions[k], tx);
    }
  }

  lemma FreshCreditKeepsInv(s: Core, k: nat)
    requires AboutToCredit(s, k) && !Paid(s, s.executions[k].task) && s.executions[k].task.fromLedger
    ensures Allocatable(s, s.executions[k].task) && s.executions[k].flight.task == s.executions[k].task
    ensures CoreInv(CreditNow(s, k))
  {
    AboutToCreditSound(s, k);
    var x := s.executions[k];
    var t := CreditNow(s, k);
    var n := |s.treasury.entries|;
    CreditRow(s, k);
    I.StepKeepsUnique(s.treasury, T.DoCredit(Target(x.task), x.flight.amount, RefOf(s, x.task), x.task.transactionRef));
    FreshCreditBalanced(s, k);
    assert t.treasury.entries[n].reference == RefOf(t, x.task);
    assert Sound(t, t.executions[k]);
    OthersSound(s, t, k);
    RowsStayExplained(s, t);
    assert Wrote(t, t.executions[k], t.treasury.entries[n]);
  }

  /** A repeated credit changes no table but this execution's flight. */
  lemma RepeatedCreditKeepsInv(s: Core, k: nat)
    requires AboutToCredit(s, k) && Paid(s, s.executions[k].task)
    ensures s.executions[k].flight.task == s.executions[k].task
    ensures CoreInv(CreditNow(s, k)) && CreditNow(s, k).treasury == s.treasury
    ensures CreditNow(s, k) == Put(s, k, s.executions[k].(flight := CreditDone(s.executions[k].flight.attempt)))
  {
    AboutToCreditSound(s, k);
    var x := s.executions[k];
    PutKeepsInv(s, k, x.(flight := CreditDone(x.flight.attempt)));
  }

  lemma CreditKeepsInv(s: Core, k: nat, commits: bool)
    requires CoreInv(s)
    ensures CoreInv(Credit(s, k, commits))
  {
    if k < |s.executions| && s.executions[k].flight.Decided? {
      var x := s.executions[k];
      AboutToCreditSound(s, k);
      if !CreditSucceeds(s, x.task, commits) {
        PutKeepsInv(s, k, AttemptThrows(x, x.flight.attempt));
      } else if Paid(s, x.task) {
        RepeatedCreditKeepsInv(s, k);
      } else {
        FreshCreditKeepsInv(s, k);
      }
    }
  }

  lemma DecideKeepsInv(s: Core, k: nat)
    requires CoreInv(s)
    ensures CoreInv(Decide(s, k))
  {
    if k < |s.executions| && s.executions[k].flight.Acting? {
      assert Sound(s, s.executions[k]);
      assert Decide(s, k) == Put(s, k, Decide(s, k).executions[k]);
      PutKeepsInv(s, k, Decide(s, k).executions[k]);
    }
  }

  // ----- Other treasury steps

  lemma OtherStepRows(s: T.State, a: T.Action)
    requires !a.DoProvision? && !a.DoCredit?
    ensures T.After(s, a).buckets.Keys == s.buckets.Keys
    ensures s.entries <= T.After(s, a).entries
    ensures forall i :: |s.entries| <= i < |T.After(s, a).entries| ==>
      !T.After(s, a).entries[i].origin.Allocation? && !StartsWith(T.After(s, a).entries[i].reference, 'a')
  {
  }

  lemma {:induction false} NoAllocationsNoChange(entries: seq<Entry>, n: nat, tx: string)
    requires n <= |entries| && forall i :: n <= i < |entries| ==> !entries[i].origin.Allocation?
    ensures Total(AllocatedFrom(tx), entries) == Total(AllocatedFrom(tx), entries[..n])
    decreases |entries|
  {
    if n == |entries| {
      assert entries[..n] == entries;
    } else {
      var m := |entries| - 1;
      NoAllocationsNoChange(entries[..m], n, tx);
      assert entries[..m][..n] == entries[..n];
    }
  }

  lemma ElsewhereBalanced(s: Core, t: Core)
    requires Balanced(s) && t.executions == s.executions && s.treasury.entries <= t.treasury.entries
    requires forall i :: |s.treasury.entries| <= i < |t.treasury.entries| ==> !t.treasury.entries[i].origin.Allocation?
    ensures Balanced(t)
  {
    forall tx ensures Total(AllocatedFrom(tx), t.treasury.entries) == CreditedFor(t.executions, tx) {
      NoAllocationsNoChange(t.treasury.entries, |s.treasury.entries|, tx);
      assert t.treasury.entries[..|s.treasury.entries|] == s.treasury.entries;
    }
  }

  lemma ElsewhereKeepsInv(s: Core, a: T.Action)
    requires CoreInv(s)
    ensures CoreInv(Elsewhere(s, a))
  {
    var t := Elsewhere(s, a);
    if !a.DoProvision? && !a.DoCredit? {
      OtherStepRows(s.treasury, a);
      I.StepKeepsUnique(s.treasury, a);
      OthersSound(s, t, |s.executions|);
      RowsStayExplained(s, t);
      ElsewhereBalanced(s, t);
    }
  }

  lemma ProvisionKeepsInv(s: Core, b: BucketId, cuid: string)
    requires CoreInv(s)
    ensures CoreInv(ProvisionBucket(s, b, cuid))
  {
    var t := ProvisionBucket(s, b, cuid);
    OthersSound(s, t, |s.executions|);
    RowsStayExplained(s, t);
    assert Balanced(t) by {
      forall tx ensures Total(AllocatedFrom(tx), t.treasury.entries) == CreditedFor(t.executions, tx) {
        assert Total(AllocatedFrom(tx), s.treasury.entries) == CreditedFor(s.executions, tx);
      }
    }
  }

  // ----- Steps on executions alone

  lemma BeginKeepsInv(s: Core, rule: nat, entry: Option<nat>, account: string, worker: nat, task: Task)
    requires CoreInv(s) && (entry.Some? <==> task.fromLedger)
    ensures CoreInv(Begin(s, rule, entry, account, worker, task))
  {
    var t := Begin(s, rule, entry, account, worker, task);
    var n := |s.executions|;
    forall j | 0 <= j < |t.executions| ensures Sound(t, t.executions[j]) {
      if j < n { SoundGrows(s, t, s.executions[j]); }
    }
    RowsStayExplained(s, t);
    forall tx ensures Total(AllocatedFrom(tx), t.treasury.entries) == CreditedFor(t.executions, tx) {
      CreditedSnoc(s.executions, t.executions[n], tx);
      assert Total(AllocatedFrom(tx), s.treasury.entries) == CreditedFor(s.executions, tx);
    }
  }

  lemma {:induction false} ArchivingKeepsCredits(executions: seq<Execution>, account: string, tx: string)
    ensures CreditedFor(ArchiveAll(executions, account), tx) == CreditedFor(executions, tx)
    decreases |executions|
  {
    if executions == [] {
    } else {
      var n := |executions| - 1;
      assert ArchiveAll(executions, account)[..n] == ArchiveAll(executions[..n], account);
      ArchivingKeepsCredits(executions[..n], account, tx);
    }
  }

  lemma ArchiveKeepsInv(s: Core, account: string)
    requires CoreInv(s)
    ensures CoreInv(Archive(s, account))
  {
    var t := Archive(s, account);
    forall j | 0 <= j < |t.executions| ensures Sound(t, t.executions[j]) {
      assert Sound(s, s.executions[j]);
      SoundGrows(s, t, s.executions[j]);
    }
    RowsStayExplained(s, t);
    forall tx ensures Total(AllocatedFrom(tx), t.treasury.entries) == CreditedFor(t.executions, tx) {
      ArchivingKeepsCredits(s.executions, account, tx);
      assert Total(AllocatedFrom(tx), s.treasury.entries) == CreditedFor(s.executions, tx);
    }
  }

  lemma MarkKeepsInv(s: Core, k: nat, written: bool)
    requires CoreInv(s)
    ensures CoreInv(Mark(s, k, written))
  {
    if k < |s.executions| && s.executions[k].flight.CreditDone? {
      assert Sound(s, s.executions[k]);
      PutKeepsInv(s, k, Mark(s, k, written).executions[k]);
    }
  }

  lemma EnqueueKeepsInv(s: Core, k: nat)
    requires CoreInv(s)
    ensures CoreInv(Enqueue(s, k))
  {
    if k < |s.executions| && s.executions[k].flight == Returned {
      assert Sound(s, s.executions[k]);
      PutKeepsInv(s, k, s.executions[k].(flight := Idle, job := Some(0)));
    }
  }

  /** Provided the lookup gives what the first attempt had. */
  lemma StartRetryKeepsInv(s: Core, k: nat, found: Option<Task>)
    requires CoreInv(s) && (k < |s.executions| && s.executions[k].entry.Some? ==> found == Some(s.executions[k].task))
    ensures CoreInv(StartRetry(s, k, found))
  {
    if RetryDue(s, k) {
      assert Sound(s, s.executions[k]);
      PutKeepsInv(s, k, StartRetry(s, k, found).executions[k]);
    }
  }

  lemma ThrowKeepsInv(s: Core, k: nat)
    requires CoreInv(s)
    ensures CoreInv(Throw(s, k))
  {
    if Throw(s, k) != s {
      assert Sound(s, s.executions[k]);
      PutKeepsInv(s, k, Throw(s, k).executions[k]);
    }
  }

  lemma CrashKeepsInv(s: Core, k: nat)
    requires CoreInv(s)
    ensures CoreInv(Crash(s, k))
  {
    if k < |s.executions| {
      assert Sound(s, s.executions[k]);
      PutKeepsInv(s, k, s.executions[k].(flight := Idle));
    }
  }

  /** Every step keeps the invariant, provided a retry's lookup gives what the first attempt had. */
  lemma StepKeepsInv(s: Core, a: Step)
    requires CoreInv(s)
    requires a.DoStartRetry? && a.execution < |s.executions| && s.executions[a.execution].entry.Some? ==>
      a.found == Some(s.executions[a.execution].task)
    ensures CoreInv(After(s, a))
  {
    match a
    case DoDecide(k) => DecideKeepsInv(s, k);
    case DoCredit(k, commits) => CreditKeepsInv(s, k, commits);
    case DoMark(k, written) => MarkKeepsInv(s, k, written);
    case DoEnqueue(k) => EnqueueKeepsInv(s, k);
    case DoStartRetry(k, found) => StartRetryKeepsInv(s, k, found);
    case DoThrow(k) => ThrowKeepsInv(s, k);
    case DoCrash(k) => CrashKeepsInv(s, k);
    case DoArchive(account) => ArchiveKeepsInv(s, account);
    case DoProvisionBucket(b, cuid) => ProvisionKeepsInv(s, b, cuid);
    case DoElsewhere(step) => ElsewhereKeepsInv(s, step);
  }

  /** Only the named execution moves. */
  lemma StepTouchesOne(s: Core, a: Step, k: nat)
    requires k < |s.executions| && !a.DoArchive? && !a.DoProvisionBucket? && !a.DoElsewhere? && a.execution != k
    ensures |After(s, a).executions| == |s.executions| && After(s, a).executions[k] == s.executions[k]
  {
  }

  lemma StepKeepsTask(s: Core, a: Step, k: nat)
    requires k < |s.executions|
    ensures |After(s, a).executions| == |s.executions| && SameTask(s.executions[k], After(s, a).executions[k])
  {
    match a
    case DoArchive(_) =>
    case DoProvisionBucket(_, _) =>
    case DoElsewhere(_) =>
    case _ => if a.execution == k { OwnStepKeepsTask(s, a, k); } else { StepTouchesOne(s, a, k); }
  }

  lemma OwnStepKeepsTask(s: Core, a: Step, k: nat)
    requires k < |s.executions| && !a.DoArchive? && !a.DoProvisionBucket? && !a.DoElsewhere? && a.execution == k
    ensures |After(s, a).executions| == |s.executions| && SameTask(s.executions[k], After(s, a).executions[k])
  {
    match a
    case DoDecide(_) =>
    case DoCredit(_, _) =>
    case DoMark(_, _) =>
    case DoStartRetry(_, _) =>
    case _ =>
  }

  lemma StepKeepsTasks(s: Core, a: Step)
    ensures |After(s, a).executions| == |s.executions| && TasksKept(s, After(s, a))
  {
    forall k | 0 <= k < |s.executions|
      ensures |After(s, a).executions| == |s.executions| && SameTask(s.executions[k], After(s, a).executions[k])
    {
      StepKeepsTask(s, a, k);
    }
    if s.executions == [] { assert After(s, a).executions == []; }
  }

  lemma StepKeepsIds(s: Core, a: Step)
    ensures forall b :: b in s.cuids ==> b in After(s, a).cuids && After(s, a).cuids[b] == s.cuids[b]
  {
  }

  // ----- Resolved executions

  /** An attempt in flight is about to write a status to execution k, whatever the row says by then. */
  predicate WritesStatus(s: Core, a: Step, k: nat) {
    && k < |s.executions|
    && match a
       case DoDecide(j) =>
         j == k && s.executions[k].flight.Acting?
         && !DecisionOf(s, s.executions[k].flight.attempt, s.executions[k].flight.task).Allocate?
       case DoCredit(j, commits) =>
         j == k && s.executions[k].flight.Decided? && !CreditSucceeds(s, s.executions[k].flight.task, commits)
       case DoMark(j, written) =>
         j == k && s.executions[k].flight.CreditDone? && (written || s.executions[k].flight.attempt == 0)
       case _ => false
  }

  /** A resolved execution changes status exactly when it was ARCHIVED under an attempt in flight and that attempt
      now writes its own result. */
  lemma ResolvedLeftExactlyWhen(s: Core, a: Step, k: nat)
    requires CoreInv(s) && k < |s.executions| && Resolved(s.executions[k].status)
    ensures |After(s, a).executions| == |s.executions|
    ensures After(s, a).executions[k].status != s.executions[k].status <==>
      s.executions[k].status == ARCHIVED && WritesStatus(s, a, k)
    ensures s.executions[k].flight == Idle ==> After(s, a).executions[k].flight == Idle
  {
    StepKeepsTask(s, a, k);
    match a
    case DoArchive(_) =>
    case DoProvisionBucket(_, _) =>
    case DoElsewhere(_) =>
    case _ => if a.execution == k { OwnStatusWritten(s, a, k); } else { StepTouchesOne(s, a, k); }
  }

  lemma OwnStatusWritten(s: Core, a: Step, k: nat)
    requires CoreInv(s) && k < |s.executions| && Resolved(s.executions[k].status)
    requires !a.DoArchive? && !a.DoProvisionBucket? && !a.DoElsewhere? && a.execution == k
    requires |After(s, a).executions| == |s.executions|
    ensures After(s, a).executions[k].status != s.executions[k].status <==>
      s.executions[k].status == ARCHIVED && WritesStatus(s, a, k)
    ensures s.executions[k].flight == Idle ==> After(s, a).executions[k].flight == Idle
  {
    assert Sound(s, s.executions[k]);
    match a
    case DoDecide(_) =>
    case DoCredit(_, _) =>
    case DoMark(_, _) =>
    case DoStartRetry(_, _) =>
    case _ =>
  }

  // ----- Exactly once

  function CountReference(entries: seq<Entry>, reference: string): nat {
    if entries == [] then 0
    else CountReference(entries[..|entries| - 1], reference)
         + (if entries[|entries| - 1].reference == reference then 1 else 0)
  }

  lemma {:induction false} UniqueMeansAtMostOne(entries: seq<Entry>, reference: string)
    requires ReferencesUnique(entries)
    ensures CountReference(entries, reference) == if HasReference(entries, reference) then 1 else 0
    decreases |entries|
  {
    if entries == [] {
    } else {
      var n := |entries| - 1;
      UniqueMeansAtMostOne(entries[..n], reference);
      if HasReference(entries[..n], reference) {
        var i :| 0 <= i < n && entries[..n][i].reference == reference;
        assert entries[i].reference == reference;
      }
      if HasReference(entries, reference) && entries[n].reference != reference {
        var i :| 0 <= i < |entries| && entries[i].reference == reference;
        assert entries[..n][i].reference == reference;
      }
    }
  }

  /** No other execution competes for this one's reference. */
  ghost predicate SoleClaimant(s: Core, k: nat)
    requires k < |s.executions| && Target(s.executions[k].task) in s.cuids
  {
    forall j :: 0 <= j < |s.executions| && j != k && Target(s.executions[j].task) in s.cuids ==>
      RefOf(s, s.executions[j].task) != RefOf(s, s.executions[k].task)
  }

  lemma SoleClaimantWrote(s: Core, k: nat)
    requires CoreInv(s) && k < |s.executions| && Paid(s, s.executions[k].task) && SoleClaimant(s, k)
    ensures exists e :: e in s.treasury.entries && Wrote(s, s.executions[k], e)
  {
    var x := s.executions[k];
    var i :| 0 <= i < |s.treasury.entries| && s.treasury.entries[i].reference == RefOf(s, x.task);
    var e := s.treasury.entries[i];
    assert Explained(s, e);
    assert StartsWith(e.reference, 'a');
    var j :| 0 <= j < |s.executions| && Wrote(s, s.executions[j], e);
    assert j == k;
  }

  /** Two executions compete exactly when they release from one transaction to buckets whose ids share eight
      characters; "once per bucket" therefore needs distinct prefixes. */
  lemma CompetesExactlyWhen(s: Core, j: nat, k: nat)
    requires CoreInv(s) && j < |s.executions| && k < |s.executions|
    requires Target(s.executions[j].task) in s.cuids && Target(s.executions[k].task) in s.cuids
    ensures var u, v := s.executions[j].task, s.executions[k].task;
      RefOf(s, u) == RefOf(s, v) <==>
        u.transactionRef == v.transactionRef && Prefix(s.cuids[Target(u)]) == Prefix(s.cuids[Target(v)])
  {
    var u, v := s.executions[j].task, s.executions[k].task;
    ReferenceInjective(u.transactionRef, s.cuids[Target(u)], v.transactionRef, s.cuids[Target(v)]);
  }

  /** Whoever comes second is marked COMPLETED although its bucket receives nothing. */
  lemma CompetitorIsSwallowed(s: Core, k: nat)
    requires AboutToCredit(s, k) && Paid(s, s.executions[k].task)
    ensures var t := Mark(Credit(s, k, true), k, true);
      t.executions[k].status == COMPLETED && t.treasury == s.treasury && t.executions[k].credited == s.executions[k].credited
  {
    AboutToCreditSound(s, k);
    RepeatedCreditKeepsInv(s, k);
  }

  // ----- Exactly one of the competitors writes the row

  /** Executions j and k credit under one reference. */
  ghost predicate SameReference(s: Core, j: nat, k: nat)
    requires j < |s.executions| && k < |s.executions|
  {
    var u, v := s.executions[j].task, s.executions[k].task;
    Target(u) in s.cuids && Target(v) in s.cuids && RefOf(s, u) == RefOf(s, v)
  }

  /** No two executions with one reference have both written its row. */
  ghost predicate OneWriter(s: Core) {
    forall j: nat, k: nat :: j < k < |s.executions| && s.executions[j].credited && s.executions[k].credited ==>
      !SameReference(s, j, k)
  }

  /** Only a credit under a reference that has no row makes an execution its writer. */
  lemma BecomesWriter(s: Core, a: Step, k: nat)
    requires CoreInv(s) && k < |s.executions| && !s.executions[k].credited
    requires k < |After(s, a).executions| && After(s, a).executions[k].credited
    ensures a.DoCredit? && a.execution == k && !Paid(s, s.executions[k].task)
  {
    if !a.DoArchive? && !a.DoProvisionBucket? && !a.DoElsewhere? && a.execution != k {
      StepTouchesOne(s, a, k);
    }
    if a.DoCredit? && a.execution == k && s.executions[k].flight.Decided? {
      AboutToCreditSound(s, k);
    }
  }

  lemma WriterPaid(s: Core, j: nat, k: nat)
    requires CoreInv(s) && j < |s.executions| && k < |s.executions| && s.executions[j].credited && SameReference(s, j, k)
    ensures Paid(s, s.executions[k].task)
  {
    assert Sound(s, s.executions[j]);
  }

  /** References do not change, so a competition after the step was one before. */
  lemma ReferenceKept(s: Core, t: Core, j: nat, k: nat)
    requires TasksKept(s, t) && |t.executions| == |s.executions| && j < |s.executions| && k < |s.executions|
    requires forall b :: b in s.cuids ==> b in t.cuids && t.cuids[b] == s.cuids[b]
    requires Target(s.executions[j].task) in s.cuids && Target(s.executions[k].task) in s.cuids && SameReference(t, j, k)
    ensures SameReference(s, j, k)
  {
    assert SameTask(s.executions[j], t.executions[j]) && SameTask(s.executions[k], t.executions[k]);
  }

  lemma WriterNamed(s: Core, a: Step, k: nat)
    requires CoreInv(s) && k < |s.executions| && k < |After(s, a).executions| && After(s, a).executions[k].credited
    ensures Target(s.executions[k].task) in s.cuids
  {
    assert Sound(s, s.executions[k]);
    if !s.executions[k].credited { BecomesWriter(s, a, k); AboutToCreditNamed(s, a, k); }
  }

  lemma AboutToCreditNamed(s: Core, a: Step, k: nat)
    requires CoreInv(s) && k < |s.executions| && a.DoCredit? && a.execution == k && !s.executions[k].credited
    requires k < |After(s, a).executions| && After(s, a).executions[k].credited
    ensures Target(s.executions[k].task) in s.cuids
  {
    assert s.executions[k].flight.Decided?;
    AboutToCreditSound(s, k);
  }

  lemma StepKeepsOneWriter(s: Core, a: Step)
    requires CoreInv(s) && OneWriter(s)
    ensures OneWriter(After(s, a))
  {
    var t := After(s, a);
    StepKeepsTasks(s, a);
    StepKeepsIds(s, a);
    forall j: nat, k: nat | j < k < |t.executions| && t.executions[j].credited && t.executions[k].credited
      ensures !SameReference(t, j, k)
    {
      if SameReference(t, j, k) {
        WriterNamed(s, a, j);
        WriterNamed(s, a, k);
        ReferenceKept(s, t, j, k);
        CompetitorsNotBoth(s, a, j, k);
      }
    }
  }

  lemma CompetitorsNotBoth(s: Core, a: Step, j: nat, k: nat)
    requires CoreInv(s) && OneWriter(s) && j < k < |s.executions| && SameReference(s, j, k)
    requires |After(s, a).executions| == |s.executions|
    ensures !(After(s, a).executions[j].credited && After(s, a).executions[k].credited)
  {
    if After(s, a).executions[j].credited && After(s, a).executions[k].credited {
      if !s.executions[j].credited { BecomesWriter(s, a, j); }
      if !s.executions[k].credited { BecomesWriter(s, a, k); }
      if s.executions[j].credited { WriterPaid(s, j, k); } else { WriterPaid(s, k, j); }
    }
  }

  lemma BeginKeepsOneWriter(s: Core, rule: nat, entry: Option<nat>, account: string, worker: nat, task: Task)
    requires OneWriter(s)
    ensures OneWriter(Begin(s, rule, entry, account, worker, task))
  {
    var t := Begin(s, rule, entry, account, worker, task);
    forall j: nat, k: nat | j < k < |t.executions| && t.executions[j].credited && t.executions[k].credited
      ensures !SameReference(t, j, k)
    {
      assert !SameReference(s, j, k);
    }
  }

  /** The execution that wrote the row under a reference. */
  lemma RowHasWriter(s: Core, k: nat) returns (j: nat)
    requires CoreInv(s) && k < |s.executions| && Paid(s, s.executions[k].task)
    ensures j < |s.executions| && s.executions[j].credited && SameReference(s, j, k)
    ensures exists e :: e in s.treasury.entries && Wrote(s, s.executions[j], e)
  {
    var x := s.executions[k];
    var i :| 0 <= i < |s.treasury.entries| && s.treasury.entries[i].reference == RefOf(s, x.task);
    var e := s.treasury.entries[i];
    assert Explained(s, e);
    assert StartsWith(e.reference, 'a');
    j :| 0 <= j < |s.executions| && Wrote(s, s.executions[j], e);
  }

  /** Another execution has written the row under this one's reference. */
  ghost predicate Beaten(s: Core, k: nat)
    requires k < |s.executions|
  {
    exists j: nat :: j < |s.executions| && j != k && s.executions[j].credited && SameReference(s, j, k)
  }

  /** A COMPLETED release of a positive amount has written its own row, on its bucket and of its amount, if and only
      if no other execution has written the row under its reference. */
  lemma WroteExactlyWhen(s: Core, k: nat)
    requires CoreInv(s) && OneWriter(s) && k < |s.executions|
    requires s.executions[k].status == COMPLETED && AmountOf(s.executions[k].task) != Some(0)
    ensures s.executions[k].credited <==> !Beaten(s, k)
    ensures s.executions[k].credited <==> exists e :: e in s.treasury.entries && Wrote(s, s.executions[k], e)
  {
    assert Sound(s, s.executions[k]);
    var j := RowHasWriter(s, k);
    if j != k { NotBothWriters(s, j, k); }
    if Beaten(s, k) {
      var i: nat :| i < |s.executions| && i != k && s.executions[i].credited && SameReference(s, i, k);
      NotBothWriters(s, i, k);
    }
  }

  lemma NotBothWriters(s: Core, j: nat, k: nat)
    requires OneWriter(s) && j < |s.executions| && k < |s.executions| && j != k && SameReference(s, j, k)
    ensures !(s.executions[j].credited && s.executions[k].credited)
  {
    if k < j { assert SameReference(s, k, j); }
  }
}
