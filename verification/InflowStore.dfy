/** The webhook worker over mutable tables: one undisturbed run of the job, from receipt to its last write. */
module InflowStore {
  import opened Wrappers
  import opened AccountStatuses
  import opened RuleEngine
  import opened AccountLedger
  import opened InflowWorker

  class Store {
    var accounts: map<string, AccountStatus>
    var ledger: seq<LedgerEntry>
    var processed: map<string, nat>
    var workers: seq<Worker>
    var evaluations: seq<Evaluation>

    function Now(): State
      reads this
    {
      State(accounts, ledger, processed, workers, evaluations)
    }

    constructor ()
      ensures Now() == INITIAL
    {
      accounts, ledger, processed, workers, evaluations := map[], [], map[], [], [];
    }

    /** The transaction of writeInflow: sum the account's inflows, then insert the row with the new total.
        None when the transactionRef is already recorded. */
    method WriteRow(account: string, ref: string, amount: nat, status: ReconciliationStatus, writer: nat, seen: AccountStatus)
      returns (r: Option<nat>)
      modifies this`ledger
      ensures HasRef(old(ledger), ref) ==> r.None? && ledger == old(ledger)
      ensures !HasRef(old(ledger), ref) ==>
        ledger == old(ledger) + [NewEntry(old(ledger), account, ref, amount, status, writer, seen)]
      ensures !HasRef(old(ledger), ref) ==> r.Some? && r.value == InflowTotal(ledger, account)
    {
      var priorTotal := InflowTotal(ledger, account);
      if HasRef(ledger, ref) {
        return None;
      }
      var row := LedgerEntry(account, ref, amount, priorTotal + amount, status, writer, seen);
      InflowTotalAppend(ledger, row, account);
      ledger := ledger + [row];
      return Some(priorTotal + amount);
    }

    /** The status gates and the ledger write: the row's total when rules are to be evaluated, None otherwise. */
    method RecordInflow(w: nat, status: AccountStatus, ghost matched: bool) returns (total: Option<nat>)
      requires w < |workers| && workers[w].pc == Found(status) && !IsCustom(workers[w].payload)
      modifies this`ledger, this`workers
      ensures Now() == After(old(Now()), Work(w, matched))
      ensures |workers| == |old(workers)| && workers[w].payload == old(workers[w]).payload
      ensures workers[w].pc == if total.Some? then Recorded(total.value) else Done
      ensures var p := old(workers[w]).payload;
              var row := NewEntry(old(ledger), p.accountNumber, p.transactionRef, p.amountKobo,
                                  if status == SUSPENDED then FLAGGED else PENDING, w, status);
        && (total.Some? <==> status == ACTIVE && !HasRef(old(ledger), p.transactionRef))
        && (total.Some? ==> total.value == row.cumulativeAmountKobo)
        && ledger == (if HasRef(old(ledger), p.transactionRef) || status == CLOSED || status == EXPIRED
                      then old(ledger) else old(ledger) + [row])
    {
      var p := workers[w].payload;
      if status == CLOSED || status == EXPIRED {
        workers := workers[w := workers[w].(pc := Done)];
        return None;
      }
      total := WriteRow(p.accountNumber, p.transactionRef, p.amountKobo,
                        if status == SUSPENDED then FLAGGED else PENDING, w, status);
      if total.None? || status == SUSPENDED {
        workers := workers[w := workers[w].(pc := Done)];
        return None;
      }
      InflowTotalAppend(old(ledger), ledger[|old(ledger)|], p.accountNumber);
      workers := workers[w := workers[w].(pc := Recorded(total.value))];
    }

    /** The inflow branch after the account was read: record, evaluate, reconcile, remember the event. */
    method ProcessInflow(w: nat, status: AccountStatus, matched: bool) returns (ghost trace: seq<Action>)
      requires w < |workers| && workers[w].pc == Found(status) && !IsCustom(workers[w].payload)
      modifies this
      ensures Now() == Run(old(Now()), trace)
      ensures |workers| == |old(workers)| && workers[w].pc == Done
      ensures var p := old(workers[w]).payload;
              var row := NewEntry(old(ledger), p.accountNumber, p.transactionRef, p.amountKobo,
                                  if status == SUSPENDED then FLAGGED else PENDING, w, status);
        if HasRef(old(ledger), p.transactionRef) || status == CLOSED || status == EXPIRED
        then ledger == old(ledger) && evaluations == old(evaluations) && processed == old(processed)
        else if status == SUSPENDED
        then ledger == old(ledger) + [row] && evaluations == old(evaluations) && processed == old(processed)
        else ledger == old(ledger) + [row.(reconciliation := if matched then MATCHED else UNMATCHED)]
             && evaluations == old(evaluations) + [Evaluation(w, p, InflowEvent(p.amountKobo, row.cumulativeAmountKobo))]
             && p.eventId in processed
    {
      ghost var p := workers[w].payload;
      RunSnoc(Now(), [], Work(w, matched));
      trace := [] + [Work(w, matched)];
      var total := RecordInflow(w, status, matched);
      if total.None? {
        return;
      }
      ghost var rest := EvaluateRecorded(w, total.value, matched);
      RelabelsLast(old(ledger), NewEntry(old(ledger), p.accountNumber, p.transactionRef, p.amountKobo, PENDING, w, status),
                   if matched then MATCHED else UNMATCHED);
      RunConcat(old(Now()), trace, rest);
      trace := trace + rest;
    }

    /** Evaluate the recorded inflow, reconcile its row, remember the event. */
    method EvaluateRecorded(w: nat, total: nat, matched: bool) returns (ghost trace: seq<Action>)
      requires w < |workers| && workers[w].pc == Recorded(total)
      modifies this`ledger, this`processed, this`workers, this`evaluations
      ensures Now() == Run(old(Now()), trace)
      ensures |workers| == |old(workers)| && workers[w] == old(workers[w]).(pc := Done)
      ensures var p := old(workers[w]).payload;
        && ledger == SetReconciliation(old(ledger), p.transactionRef, if matched then MATCHED else UNMATCHED)
        && evaluations == old(evaluations) + [Evaluation(w, p, InflowEvent(p.amountKobo, total))]
        && p.eventId in processed
    {
      var p := workers[w].payload;
      RunSnoc(Now(), [], Work(w, matched));
      trace := [] + [Work(w, matched)];
      evaluations := evaluations + [Evaluation(w, p, InflowEvent(p.amountKobo, total))];
      workers := workers[w := workers[w].(pc := Evaluated(matched))];
      RunSnoc(old(Now()), trace, Work(w, matched));
      trace := trace + [Work(w, matched)];
      ledger := SetReconciliation(ledger, p.transactionRef, if matched then MATCHED else UNMATCHED);
      workers := workers[w := workers[w].(pc := Reconciled)];
      RunSnoc(old(Now()), trace, Work(w, matched));
      trace := trace + [Work(w, matched)];
      if p.eventId !in processed {
        processed := processed[p.eventId := w];
      }
      workers := workers[w := workers[w].(pc := Done)];
    }

    /** One delivery of a job, undisturbed, from receipt to its last write. Rules are evaluated exactly when the event
        was not processed before, the account exists, and the event is custom or a new inflow to an ACTIVE account. */
    method Process(p: Payload, matched: bool) returns (ghost trace: seq<Action>)
      modifies this
      ensures Now() == Run(old(Now()), trace)
      ensures |workers| == |old(workers)| + 1 && workers[|old(workers)|].pc == Done
      ensures var known := p.eventId !in old(processed) && p.accountNumber in old(accounts);
        && (known && IsCustom(p) ==>
              && evaluations == old(evaluations) + [Evaluation(|old(workers)|, p, CustomEventOf(p.eventType.value))]
              && p.eventId in processed && ledger == old(ledger))
        && (known && !IsCustom(p) ==>
              && (evaluations != old(evaluations) <==>
                    old(accounts)[p.accountNumber] == ACTIVE && !HasRef(old(ledger), p.transactionRef))
              && (evaluations != old(evaluations) ==> p.eventId in processed && |ledger| == |old(ledger)| + 1))
        && (!known ==> evaluations == old(evaluations) && ledger == old(ledger) && processed == old(processed))
    {
      var w := |workers|;
      RunSnoc(Now(), [], Deliver(p));
      trace := [] + [Deliver(p)];
      workers := workers + [Worker(p, Started)];
      RunSnoc(old(Now()), trace, Work(w, matched));
      trace := trace + [Work(w, matched)];
      if p.eventId in processed {
        workers := workers[w := Worker(p, Done)];
        return;
      }
      workers := workers[w := Worker(p, NotSeen)];
      RunSnoc(old(Now()), trace, Work(w, matched));
      trace := trace + [Work(w, matched)];
      if p.accountNumber !in accounts {
        workers := workers[w := Worker(p, Done)];
        return;
      }
      var status := accounts[p.accountNumber];
      workers := workers[w := Worker(p, Found(status))];
      ghost var rest;
      if IsCustom(p) {
        rest := ProcessCustomEvent(w, matched);
      } else {
        rest := ProcessInflow(w, status, matched);
      }
      RunConcat(old(Now()), trace, rest);
      trace := trace + rest;
    }

    /** Custom events claim their eventId first, then evaluate. */
    method ProcessCustomEvent(w: nat, matched: bool) returns (ghost trace: seq<Action>)
      requires w < |workers| && workers[w].pc.Found? && IsCustom(workers[w].payload)
      requires workers[w].payload.eventId !in processed
      modifies this
      ensures Now() == Run(old(Now()), trace)
      ensures |workers| == |old(workers)| && workers[w].pc == Done && ledger == old(ledger)
      ensures workers[w].payload == old(workers[w]).payload && workers[w].payload.eventId in processed
      ensures evaluations == old(evaluations)
        + [Evaluation(w, old(workers[w]).payload, CustomEventOf(old(workers[w]).payload.eventType.value))]
    {
      var p := workers[w].payload;
      RunSnoc(Now(), [], Work(w, matched));
      trace := [] + [Work(w, matched)];
      processed := processed[p.eventId := w];
      workers := workers[w := workers[w].(pc := Claimed)];
      RunSnoc(old(Now()), trace, Work(w, matched));
      trace := trace + [Work(w, matched)];
      evaluations := evaluations + [Evaluation(w, p, CustomEventOf(p.eventType.value))];
      workers := workers[w := workers[w].(pc := Done)];
    }
  }

  lemma RelabelsLast(ledger: seq<LedgerEntry>, row: LedgerEntry, status: ReconciliationStatus)
    requires !HasRef(ledger, row.transactionRef)
    ensures SetReconciliation(ledger + [row], row.transactionRef, status) == ledger + [row.(reconciliation := status)]
  {
    var l := SetReconciliation(ledger + [row], row.transactionRef, status);
    forall i | 0 <= i < |ledger| ensures l[i] == ledger[i] {
      assert ledger[i].transactionRef != row.transactionRef;
    }
  }
}
