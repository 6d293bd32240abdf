/** The treasury services over mutable tables. Every method is tied to the step of the same name, so
    all theorems about runs apply to any sequence of calls. */
module TreasuryStore {
  import opened Wrappers
  import opened AccountStatuses
  import opened BucketLedger
  import opened Treasury
  import opened Idempotency

  type Reply<+T> = Result<T, Error>

  /** What the environment decides during one settlement request. */
  datatype Environment = Environment(
    nombaAccepts: bool,   // the bank transfer returns instead of throwing
    secondTxAborts: bool, // the completing transaction is rolled back
    failureWritten: bool, // the catch block's own update goes through
    unique: string)       // the random part of the references

  // ----- What a request asks of the tables, said without the steps that answer it

  /** The bucket can reserve the amount: `statusSeen` was read before, the cached balance covers what is reserved and
      the amount, and the id is new. */
  ghost predicate Reservable(s: State, b: BucketId, id: string, amount: nat, statusSeen: AccountStatus) {
    && amount >= 1 && b in s.buckets && statusSeen == ACTIVE
    && ReservedOn(s, b) + amount <= LatestBalance(s.entries, b)
    && forall i :: 0 <= i < |s.settlements| ==> s.settlements[i].id != id
  }

  /** The transfer of a reserved settlement goes through: Nomba accepts or the destination bucket exists, and the
      completing transaction commits, for which its references must be new. */
  ghost predicate GoesThrough(s: State, b: BucketId, id: string, destination: Destination, env: Environment) {
    && !env.secondTxAborts
    && match destination
       case ToBank(hasDetails) =>
         hasDetails && env.nombaAccepts && !HasReference(s.entries, "stl_" + "stl_" + id + "_" + env.unique)
       case ToBucket(None) => false
       case ToBucket(Some(ref)) =>
         && BucketId(b.businessId, ref) in s.buckets
         && !HasReference(s.entries, "stl_int_" + env.unique + "_out")
         && !HasReference(s.entries, "stl_int_" + env.unique + "_in")
  }

  /** From s to t the amount left `source` and, where there is one, reached `dest`; no other balance changed. */
  ghost predicate Moved(s: State, t: State, amount: nat, source: BucketId, dest: Option<BucketId>) {
    forall d :: Balance(t, d)
             == Balance(s, d) - (if d == source then amount else 0) + (if Some(d) == dest then amount else 0)
  }

  /** Where a settlement pays to. */
  function Payee(b: BucketId, destination: Destination): Option<BucketId> {
    match destination
    case ToBucket(Some(ref)) => Some(BucketId(b.businessId, ref))
    case _ => None
  }

  class Store {
    var buckets: map<BucketId, AccountStatus>
    var entries: seq<Entry>
    var settlements: seq<Settlement>
    var closings: seq<Closing>

    function Now(): State
      reads this
    {
      State(buckets, entries, settlements, closings)
    }

    constructor ()
      ensures Now() == INITIAL
    {
      buckets, entries, settlements, closings := map[], [], [], [];
    }

    /** Balance, available and reserved amounts of a bucket. */
    method GetBalance(b: BucketId) returns (r: Reply<(int, int, int)>)
      ensures b !in buckets <==> r == Err(BucketNotFound)
      ensures r.Ok? ==> r.value.0 == Balance(Now(), b) && r.value.1 + r.value.2 == r.value.0
                        && r.value.2 == ReservedOn(Now(), b)
    {
      if b !in buckets {
        return Err(BucketNotFound);
      }
      var balance := ComputeBalance(entries, b);
      var reserved := ReservedKobo(settlements, b);
      return Ok((balance, balance - reserved, reserved));
    }

    /** One undisturbed closing request: it closes exactly an open bucket without balance and reservations. */
    method CloseBucket(b: BucketId) returns (r: Reply<()>, ghost trace: seq<Action>)
      modifies this`buckets, this`closings
      ensures Now() == Run(old(Now()), trace)
      ensures r.Ok? <==> b in old(buckets) && old(buckets)[b] != CLOSED
                         && Balance(old(Now()), b) == 0 && ReservedOn(old(Now()), b) == 0
      ensures r.Ok? ==> buckets == old(buckets)[b := CLOSED] && Balance(Now(), b) == 0 && ReservedOn(Now(), b) == 0
      ensures r.Err? ==> buckets == old(buckets)
      ensures r == Err(BucketNotFound) <==> b !in old(buckets)
      ensures r == Err(AlreadyClosed) <==> b in old(buckets) && old(buckets)[b] == CLOSED
    {
      trace := [];
      if b !in buckets {
        return Err(BucketNotFound), trace;
      }
      if buckets[b] == CLOSED {
        return Err(AlreadyClosed), trace;
      }
      ghost var s := Now();
      var c := |closings|;
      var balance := ComputeBalance(entries, b);
      var reserved := ReservedKobo(settlements, b);
      ClosingReads(s, b);
      trace := ClosingTrace(b, c);
      closings := closings + [Closing(b, if balance != 0 || reserved != 0 then Over else FoundEmpty)];
      if balance != 0 || reserved != 0 {
        return Err(InsufficientBalance), trace;
      }
      RunSnoc(s, trace, DoClosing(WriteClosed(c)));
      trace := trace + [DoClosing(WriteClosed(c))];
      closings := closings[c := Closing(b, Over)];
      buckets := buckets[b := CLOSED];
      return Ok(()), trace;
    }

    /** One run of the credit transaction. */
    method CreditOnce(b: BucketId, amount: nat, reference: string, source: string) returns (r: Reply<int>)
      modifies this`entries
      ensures Now() == After(old(Now()), DoCredit(b, amount, reference, source))
      ensures r.Ok? <==> Step(old(Now()), DoCredit(b, amount, reference, source)).Committed?
      ensures r.Err? ==> Step(old(Now()), DoCredit(b, amount, reference, source)) == Rejected(r.error)
      ensures r.Ok? ==> HasReference(entries, reference)
                        && r.value == EntryWith(entries, reference).cumulativeAmountKobo
      ensures r.Ok? && entries != old(entries) ==> r.value == Balance(Now(), b)
      ensures r.Ok? <==> HasReference(old(entries), reference) || b in old(buckets)
      ensures r.Err? || HasReference(old(entries), reference) ==> entries == old(entries)
      ensures r.Ok? && !HasReference(old(entries), reference) ==>
        && |entries| == |old(entries)| + 1 && entries[..|old(entries)|] == old(entries)
        && entries[|old(entries)|] == Entry(b, CREDIT, amount, Balance(old(Now()), b) + amount, reference, Allocation(source))
        && forall d :: Balance(Now(), d) == Balance(old(Now()), d) + if d == b then amount else 0
    {
      if HasReference(entries, reference) {
        return Ok(EntryWith(entries, reference).cumulativeAmountKobo);
      }
      if b !in buckets {
        return Err(BucketNotFound);
      }
      var balance := ComputeBalance(entries, b);
      var newBalance := balance + amount;
      var row := Entry(b, CREDIT, amount, newBalance, reference, Allocation(source));
      forall d ensures ComputeBalance(entries + [row], d) == ComputeBalance(entries, d) + if d == b then amount else 0 {
        BalanceAppend(entries, row, d);
      }
      assert (entries + [row])[|entries|].reference == reference;
      entries := entries + [row];
      return Ok(newBalance);
    }

    /** Transactions of other requests. */
    method Interfere(actions: seq<Action>)
      modifies this
      ensures Now() == Run(old(Now()), actions)
    {
      var t := Run(Now(), actions);
      buckets, entries, settlements, closings := t.buckets, t.entries, t.settlements, t.closings;
    }

    /** `credit` with its replay loop: before attempt i other requests commit `others(i)`, and
        `outcomes(i)` says how the attempt ends. Exactly the last attempt leaves a trace, and only when it commits. */
    method CreditWithReplay(b: BucketId, amount: nat, reference: string, source: string, maxRetries: nat,
                            outcomes: nat -> Attempt, others: nat -> seq<Action>)
      returns (r: Reply<int>, runs: nat)
      modifies this
      ensures 1 <= runs <= maxRetries + 1 && runs == Runs(outcomes, maxRetries, 0)
      ensures var before := Interleaved(old(Now()), others, runs - 1);
        if outcomes(runs - 1) == Commits && Step(before, DoCredit(b, amount, reference, source)).Committed?
        then r.Ok? && Now() == After(before, DoCredit(b, amount, reference, source))
                   && HasReference(entries, reference)
                   && r.value == EntryWith(entries, reference).cumulativeAmountKobo
        else r.Err? && Now() == before
    {
      var attempt := 0;
      RunsIsFirstNonConflict(outcomes, maxRetries, 0);
      while true
        invariant 0 <= attempt <= maxRetries
        invariant Runs(outcomes, maxRetries, attempt) == Runs(outcomes, maxRetries, 0)
        invariant attempt == 0 ==> Now() == old(Now())
        invariant attempt > 0 ==> Now() == Interleaved(old(Now()), others, attempt - 1)
        decreases maxRetries - attempt
      {
        Interfere(others(attempt));
        if outcomes(attempt) == Commits {
          r := CreditOnce(b, amount, reference, source);
          return r, attempt + 1;
        }
        if outcomes(attempt) == Fails || attempt >= maxRetries {
          return Err(TransactionFailed), attempt + 1;
        }
        attempt := attempt + 1;
      }
    }

    method TransferBetweenBuckets(business: string, sourceRef: string, destRef: string, amount: nat, uuid: string)
      returns (r: Reply<(int, int)>)
      modifies this`entries
      ensures Now() == After(old(Now()), DoTransfer(business, sourceRef, destRef, amount, uuid))
      ensures r.Ok? <==> Step(old(Now()), DoTransfer(business, sourceRef, destRef, amount, uuid)).Committed?
      ensures r.Err? ==> Step(old(Now()), DoTransfer(business, sourceRef, destRef, amount, uuid)) == Rejected(r.error)
      ensures r.Ok? ==> r.value.0 == Balance(Now(), BucketId(business, sourceRef)) >= 0
                        && r.value.1 == Balance(Now(), BucketId(business, destRef))
      ensures var source, dest := BucketId(business, sourceRef), BucketId(business, destRef);
        && (r.Ok? <==>
              && amount >= 1 && destRef != sourceRef && source in buckets && dest in buckets
              && buckets[source] == ACTIVE && buckets[dest] == ACTIVE && amount <= Balance(old(Now()), source)
              && !HasReference(old(entries), "xfer_" + uuid + "_out") && !HasReference(old(entries), "xfer_" + uuid + "_in"))
        && (r.Ok? ==> |entries| == |old(entries)| + 2 && Moved(old(Now()), Now(), amount, source, Some(dest)))
      ensures r.Err? ==> entries == old(entries)
    {
      if amount < 1 || destRef == sourceRef {
        return Err(ValidationError);
      }
      var source, dest := BucketId(business, sourceRef), BucketId(business, destRef);
      if source !in buckets || dest !in buckets {
        return Err(BucketNotFound);
      }
      if buckets[source] != ACTIVE || buckets[dest] != ACTIVE {
        return Err(BucketNotActive);
      }
      var sourceBalance := ComputeBalance(entries, source);
      if sourceBalance < amount {
        return Err(InsufficientBalance);
      }
      var ref := "xfer_" + uuid;
      var destBalance := ComputeBalance(entries, dest);
      if HasReference(entries, ref + "_out") || HasReference(entries, ref + "_in") {
        return Err(UniqueViolation);
      }
      var debit := Entry(source, DEBIT, amount, sourceBalance - amount, ref + "_out", TransferOut);
      var credit := Entry(dest, CREDIT, amount, destBalance + amount, ref + "_in", TransferIn);
      PairMoves(Now(), debit, credit);
      assert entries + [debit] + [credit] == entries + ([debit] + [credit]);
      entries := entries + [debit];
      entries := entries + [credit];
      return Ok((sourceBalance - amount, destBalance + amount));
    }

    /** First transaction of a settlement: the new row is PENDING and reserves the amount. */
    method ReserveFunds(b: BucketId, id: string, amount: nat, destination: Destination, statusSeen: AccountStatus)
      returns (r: Reply<nat>)
      modifies this`settlements
      ensures Now() == After(old(Now()), DoReserve(b, id, amount, destination, statusSeen))
      ensures r.Ok? <==> Step(old(Now()), DoReserve(b, id, amount, destination, statusSeen)).Committed?
      ensures r.Err? ==> Step(old(Now()), DoReserve(b, id, amount, destination, statusSeen)) == Rejected(r.error)
      ensures r.Ok? ==> r.value == |old(settlements)| && |settlements| == r.value + 1
                        && ReservedOn(Now(), b) == ReservedOn(old(Now()), b) + amount
      ensures r.Ok? <==> Reservable(old(Now()), b, id, amount, statusSeen)
      ensures CacheLaw(old(entries)) && r.Ok? ==>
        ReservedOn(old(Now()), b) + amount <= Balance(old(Now()), b) + Drift(old(entries), b)
      ensures r.Ok? ==>
        && settlements[..r.value] == old(settlements)
        && settlements[r.value] == Settlement(id, b, amount, PENDING, destination, Reserved, false)
      ensures r.Err? ==> settlements == old(settlements)
    {
      if amount < 1 {
        return Err(ValidationError);
      }
      if b !in buckets {
        return Err(BucketNotFound);
      }
      if statusSeen != ACTIVE {
        return Err(BucketNotActive);
      }
      var available := LatestBalance(entries, b) - ReservedKobo(settlements, b);
      if available < amount {
        return Err(InsufficientBalance);
      }
      if HasSettlement(settlements, id) {
        return Err(UniqueViolation);
      }
      var row := Settlement(id, b, amount, PENDING, destination, Reserved, false);
      ReservedAppend(settlements, row, b);
      settlements := settlements + [row];
      return Ok(|settlements| - 1);
    }

    /** The completing transaction of an accepted bank transfer. */
    method CompleteSettlement(k: nat, suffix: string, aborts: bool) returns (committed: bool)
      requires InPhase(Now(), k, Accepted)
      modifies this`entries, this`settlements
      ensures Now() == After(old(Now()), DoCompleteBank(k, suffix, aborts))
      ensures committed <==> entries != old(entries)
      ensures committed <==> settlements[k].status == COMPLETED && settlements[k].phase == Finished
      ensures committed <==> !aborts && !HasReference(old(entries), "stl_" + "stl_" + old(settlements[k]).id + "_" + suffix)
      ensures committed ==>
        var st := old(settlements[k]);
        && |entries| == |old(entries)| + 1 && entries[..|old(entries)|] == old(entries)
        && entries[|old(entries)|].bucket == st.bucket && entries[|old(entries)|].entryType == DEBIT
        && entries[|old(entries)|].amountKobo == st.amountKobo
        && Moved(old(Now()), Now(), st.amountKobo, st.bucket, None)
    {
      var st := settlements[k];
      if aborts || HasReference(entries, BankReference(st, suffix)) {
        settlements := settlements[k := st.(phase := Failing)];
        return false;
      }
      var balance := LatestBalance(entries, st.bucket);
      var debit := Entry(st.bucket, DEBIT, st.amountKobo, balance - st.amountKobo, BankReference(st, suffix), SettledToBank(k));
      DebitMoves(Now(), debit);
      entries := entries + [debit];
      settlements := settlements[k := st.(status := COMPLETED, phase := Finished)];
      return true;
    }

    /** The completing transaction of an internal settlement. */
    method SettleBetweenBuckets(k: nat, uuid: string, aborts: bool) returns (committed: bool)
      requires InPhase(Now(), k, Processing)
      requires settlements[k].destination.ToBucket? && settlements[k].destination.bucketRef.Some?
      modifies this`entries, this`settlements
      ensures Now() == After(old(Now()), DoSettleInternal(k, uuid, aborts))
      ensures committed <==> entries != old(entries)
      ensures committed <==> settlements[k].status == COMPLETED && settlements[k].phase == Finished
      ensures var st := old(settlements[k]);
              var dest := BucketId(st.bucket.businessId, st.destination.bucketRef.value);
        && (committed <==>
              && !aborts && dest in buckets
              && !HasReference(old(entries), "stl_int_" + uuid + "_out") && !HasReference(old(entries), "stl_int_" + uuid + "_in"))
        && (committed ==> |entries| == |old(entries)| + 2 && Moved(old(Now()), Now(), st.amountKobo, st.bucket, Some(dest)))
    {
      var st := settlements[k];
      var source, dest := st.bucket, BucketId(st.bucket.businessId, st.destination.bucketRef.value);
      var ref := "stl_int_" + uuid;
      if aborts || dest !in buckets || HasReference(entries, ref + "_out") || HasReference(entries, ref + "_in") {
        settlements := settlements[k := st.(phase := Failing)];
        return false;
      }
      var sourceBalance := ComputeBalance(entries, source);
      var destBalance := ComputeBalance(entries, dest);
      var debit := Entry(source, DEBIT, st.amountKobo, sourceBalance - st.amountKobo, ref + "_out", SettledOut(k));
      var credit := Entry(dest, CREDIT, st.amountKobo, destBalance + st.amountKobo, ref + "_in", SettledIn(k, source));
      PairMoves(Now(), debit, credit);
      assert entries + [debit] + [credit] == entries + ([debit] + [credit]);
      entries := entries + [debit];
      entries := entries + [credit];
      settlements := settlements[k := st.(status := COMPLETED, phase := Finished)];
      return true;
    }

    /** PROCESSING, then the transfer: the part of a request between its two outcomes. */
    method Execute(k: nat, env: Environment) returns (committed: bool, ghost trace: seq<Action>)
      requires InPhase(Now(), k, Reserved)
      modifies this`entries, this`settlements
      ensures Now() == Run(old(Now()), trace)
      ensures |settlements| == |old(settlements)| && settlements == old(settlements)[k := settlements[k]]
      ensures settlements[k].bucket == old(settlements[k]).bucket
              && settlements[k].amountKobo == old(settlements[k]).amountKobo
      ensures committed ==> settlements[k].status == COMPLETED && entries != old(entries)
      ensures !committed ==> settlements[k].status == PROCESSING && settlements[k].phase == Failing
                             && entries == old(entries)
      ensures var st := old(settlements[k]);
        && (committed <==> GoesThrough(old(Now()), st.bucket, st.id, st.destination, env))
        && (committed ==>
              && |entries| == |old(entries)| + (if st.destination.ToBank? then 1 else 2)
              && Moved(old(Now()), Now(), st.amountKobo, st.bucket, Payee(st.bucket, st.destination)))
    {
      var destination := settlements[k].destination;
      RunSnoc(Now(), [], DoMarkProcessing(k));
      trace := [] + [DoMarkProcessing(k)];
      settlements := settlements[k := settlements[k].(status := PROCESSING, phase := Processing)];
      if destination.ToBucket? && destination.bucketRef.Some? {
        RunSnoc(old(Now()), trace, DoSettleInternal(k, env.unique, env.secondTxAborts));
        trace := trace + [DoSettleInternal(k, env.unique, env.secondTxAborts)];
        committed := SettleBetweenBuckets(k, env.unique, env.secondTxAborts);
        return;
      }
      ghost var rest;
      committed, rest := ExecuteBankTransfer(k, env);
      RunConcat(old(Now()), trace, rest);
      trace := trace + rest;
    }

    /** The external transfer, or the refusal for want of destination details, and its completing transaction. */
    method ExecuteBankTransfer(k: nat, env: Environment) returns (committed: bool, ghost trace: seq<Action>)
      requires InPhase(Now(), k, Processing) && settlements[k].status == PROCESSING
      requires settlements[k].destination.ToBank? || settlements[k].destination.bucketRef.None?
      modifies this`entries, this`settlements
      ensures Now() == Run(old(Now()), trace)
      ensures |settlements| == |old(settlements)| && settlements == old(settlements)[k := settlements[k]]
      ensures settlements[k].bucket == old(settlements[k]).bucket
              && settlements[k].amountKobo == old(settlements[k]).amountKobo
      ensures committed ==> settlements[k].status == COMPLETED && entries != old(entries)
      ensures !committed ==> settlements[k].status == PROCESSING && settlements[k].phase == Failing
                             && entries == old(entries)
      ensures var st := old(settlements[k]);
        && (committed <==> GoesThrough(old(Now()), st.bucket, st.id, st.destination, env))
        && (committed ==>
              && |entries| == |old(entries)| + (if st.destination.ToBank? then 1 else 2)
              && Moved(old(Now()), Now(), st.amountKobo, st.bucket, Payee(st.bucket, st.destination)))
    {
      RunSnoc(Now(), [], DoCallNomba(k, env.nombaAccepts));
      trace := [] + [DoCallNomba(k, env.nombaAccepts)];
      if settlements[k].destination == ToBank(true) && env.nombaAccepts {
        settlements := settlements[k := settlements[k].(phase := Accepted, nombaAccepted := true)];
        RunSnoc(old(Now()), trace, DoCompleteBank(k, env.unique, env.secondTxAborts));
        trace := trace + [DoCompleteBank(k, env.unique, env.secondTxAborts)];
        committed := CompleteSettlement(k, env.unique, env.secondTxAborts);
        return;
      }
      settlements := settlements[k := settlements[k].(phase := Failing)];
      committed := false;
    }

    /** The catch block. */
    method MarkSettlementFailed(k: nat, written: bool)
      requires InPhase(Now(), k, Failing) && settlements[k].status == PROCESSING
      modifies this`settlements
      ensures Now() == After(old(Now()), DoMarkFailed(k, written))
      ensures |settlements| == |old(settlements)| && settlements == old(settlements)[k := settlements[k]]
      ensures settlements[k].bucket == old(settlements[k]).bucket
              && settlements[k].amountKobo == old(settlements[k]).amountKobo
      ensures settlements[k].status == if written then FAILED else PROCESSING
    {
      if written {
        settlements := settlements[k := settlements[k].(status := FAILED, phase := Finished)];
      } else {
        settlements := settlements[k := settlements[k].(phase := Abandoned)];
      }
    }

    /** One whole settlement request, undisturbed by others. It succeeds exactly when the settlement ends
        COMPLETED; a failed one leaves the ledger alone and, unless its own FAILED write is lost, gives the
        reservation back. `trace` is the run it amounts to. */
    method Initiate(b: BucketId, id: string, amount: nat, destination: Destination, statusSeen: AccountStatus,
                    env: Environment)
      returns (r: Reply<nat>, ghost trace: seq<Action>)
      modifies this
      ensures Now() == Run(old(Now()), trace)
      ensures var first := Step(old(Now()), DoReserve(b, id, amount, destination, statusSeen));
              var k := |old(settlements)|;
        if !Reservable(old(Now()), b, id, amount, statusSeen)
        then first.Rejected? && r == Err(first.error) && Now() == old(Now())
        else
          && |settlements| == k + 1 && settlements[..k] == old(settlements)
          && settlements[k].bucket == b && settlements[k].amountKobo == amount
          && (r.Ok? <==> settlements[k].status == COMPLETED)
          && (r.Ok? ==> r.value == k && entries != old(entries))
          && (r.Ok? <==> GoesThrough(old(Now()), b, id, destination, env))
          && (r.Ok? ==> |entries| == |old(entries)| + (if destination.ToBank? then 1 else 2)
                        && Moved(old(Now()), Now(), amount, b, Payee(b, destination))
                        && ReservedOn(Now(), b) == ReservedOn(old(Now()), b))
          && (r.Err? ==> entries == old(entries)
                         && settlements[k].status == (if env.failureWritten then FAILED else PROCESSING)
                         && ReservedOn(Now(), b) == ReservedOn(old(Now()), b) + (if env.failureWritten then 0 else amount))
    {
      ghost var reserve := DoReserve(b, id, amount, destination, statusSeen);
      RunSnoc(Now(), [], reserve);
      r := ReserveFunds(b, id, amount, destination, statusSeen);
      trace := [] + [reserve];
      if r.Err? {
        return;
      }
      var k := r.value;
      ghost var reserved := settlements;
      var committed; ghost var rest;
      committed, rest := Execute(k, env);
      RunConcat(old(Now()), trace, rest);
      trace := trace + rest;
      if committed {
        ReservedUpdate(reserved, k, settlements[k], b);
        return;
      }
      RunSnoc(old(Now()), trace, DoMarkFailed(k, env.failureWritten));
      trace := trace + [DoMarkFailed(k, env.failureWritten)];
      MarkSettlementFailed(k, env.failureWritten);
      assert settlements == reserved[k := settlements[k]];
      ReservedUpdate(reserved, k, settlements[k], b);
      r := Err(TransactionFailed);
    }
  }

  // ----- What rows do to balances

  lemma DebitMoves(s: State, e: Entry)
    requires e.entryType == DEBIT
    ensures Moved(s, s.(entries := s.entries + [e]), e.amountKobo, e.bucket, None)
  {
    var t := s.(entries := s.entries + [e]);
    forall d
      ensures Balance(t, d)
           == Balance(s, d) - (if d == e.bucket then e.amountKobo else 0) + (if Some(d) == None then e.amountKobo else 0)
    {
      BalanceAppend(s.entries, e, d);
    }
  }

  lemma PairMoves(s: State, e: Entry, f: Entry)
    requires e.entryType == DEBIT && f.entryType == CREDIT && e.amountKobo == f.amountKobo
    ensures Moved(s, s.(entries := s.entries + ([e] + [f])), e.amountKobo, e.bucket, Some(f.bucket))
  {
    var t := s.(entries := s.entries + ([e] + [f]));
    forall d
      ensures Balance(t, d)
           == Balance(s, d) - (if d == e.bucket then e.amountKobo else 0)
              + (if Some(d) == Some(f.bucket) then e.amountKobo else 0)
    {
      PairBalance(s.entries, e, f, d);
    }
  }

  // ----- The reads of a closing request

  function ClosingTrace(b: BucketId, c: nat): seq<Action> {
    [DoClosing(Ask(b))] + [DoClosing(ReadBalance(c))] + [DoClosing(ReadReserved(c))]
  }

  lemma ClosingReads(s: State, b: BucketId)
    requires b in s.buckets && s.buckets[b] != CLOSED
    ensures Run(s, ClosingTrace(b, |s.closings|))
         == s.(closings := s.closings
               + [Closing(b, if Balance(s, b) != 0 || ReservedOn(s, b) != 0 then Over else FoundEmpty)])
  {
    var c := |s.closings|;
    RunSnoc(s, [], DoClosing(Ask(b)));
    assert [] + [DoClosing(Ask(b))] == [DoClosing(Ask(b))];
    RunSnoc(s, [DoClosing(Ask(b))], DoClosing(ReadBalance(c)));
    var asked := s.(closings := s.closings + [Closing(b, StatusRead)]);
    assert After(asked, DoClosing(ReadBalance(c)))
        == s.(closings := s.closings + [Closing(b, BalanceRead(Balance(s, b)))]);
    RunSnoc(s, [DoClosing(Ask(b))] + [DoClosing(ReadBalance(c))], DoClosing(ReadReserved(c)));
  }
}
