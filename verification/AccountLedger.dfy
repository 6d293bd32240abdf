/** The customer ledger: inflow rows with running totals. */
module AccountLedger {
  import opened AccountStatuses
  import opened RuleEngine

  datatype ReconciliationStatus = PENDING | MATCHED | UNMATCHED | FLAGGED

  /** `writer` (the job run that wrote the row) and `seen` (the account status that run had read) are
      history, not columns. */
  datatype LedgerEntry = LedgerEntry(
    account: string,
    transactionRef: string,
    amountKobo: nat,
    cumulativeAmountKobo: nat,
    reconciliation: ReconciliationStatus,
    writer: nat,
    seen: AccountStatus)

  /** SUM(amountKobo) of the account's inflows. */
  function InflowTotal(ledger: seq<LedgerEntry>, account: string): nat {
    if ledger == [] then 0
    else
      var last := ledger[|ledger| - 1];
      InflowTotal(ledger[..|ledger| - 1], account) + (if last.account == account then last.amountKobo else 0)
  }

  predicate HasRef(ledger: seq<LedgerEntry>, ref: string) {
    exists i :: 0 <= i < |ledger| && ledger[i].transactionRef == ref
  }

  ghost predicate RefsUnique(ledger: seq<LedgerEntry>) {
    forall i, j :: 0 <= i < j < |ledger| ==> ledger[i].transactionRef != ledger[j].transactionRef
  }

  function NewEntry(ledger: seq<LedgerEntry>, account: string, ref: string, amount: nat,
                    status: ReconciliationStatus, writer: nat, seen: AccountStatus): LedgerEntry
  {
    LedgerEntry(account, ref, amount, InflowTotal(ledger, account) + amount,
                status, writer, seen)
  }

  function Reconcile(e: LedgerEntry, ref: string, status: ReconciliationStatus): LedgerEntry {
    if e.transactionRef == ref then e.(reconciliation := status) else e
  }

  /** UPDATE ... SET reconciliationStatus WHERE nombaTransactionRef = ref */
  function SetReconciliation(ledger: seq<LedgerEntry>, ref: string, status: ReconciliationStatus): (r: seq<LedgerEntry>)
    ensures |r| == |ledger|
    ensures forall i :: 0 <= i < |ledger| ==> r[i] == Reconcile(ledger[i], ref, status)
  {
    seq(|ledger|, i requires 0 <= i < |ledger| => Reconcile(ledger[i], ref, status))
  }

  /** Each row carries its account's running total up to and including itself. */
  ghost predicate RunningTotals(ledger: seq<LedgerEntry>) {
    forall k :: 0 <= k < |ledger| ==> ledger[k].cumulativeAmountKobo == InflowTotal(ledger[..k + 1], ledger[k].account)
  }

  lemma InflowTotalAppend(ledger: seq<LedgerEntry>, e: LedgerEntry, account: string)
    ensures InflowTotal(ledger + [e], account)
         == InflowTotal(ledger, account) + (if e.account == account then e.amountKobo else 0)
  {
    assert (ledger + [e])[..|ledger|] == ledger;
  }

  lemma AppendKeepsTotals(ledger: seq<LedgerEntry>, account: string, ref: string, amount: nat,
                          status: ReconciliationStatus, writer: nat, seen: AccountStatus)
    requires RunningTotals(ledger)
    ensures RunningTotals(ledger + [NewEntry(ledger, account, ref, amount, status, writer, seen)])
  {
    var e := NewEntry(ledger, account, ref, amount, status, writer, seen);
    var l := ledger + [e];
    forall k | 0 <= k < |l| ensures l[k].cumulativeAmountKobo == InflowTotal(l[..k + 1], l[k].account) {
      if k < |ledger| {
        assert l[..k + 1] == ledger[..k + 1];
      } else {
        assert l[..k + 1] == l && l[..|l| - 1] == ledger;
      }
    }
  }

  lemma {:induction false} TotalsIgnoreStatus(a: seq<LedgerEntry>, b: seq<LedgerEntry>, account: string)
    requires |a| == |b|
    requires forall i :: 0 <= i < |a| ==> b[i].account == a[i].account && b[i].amountKobo == a[i].amountKobo
    ensures InflowTotal(a, account) == InflowTotal(b, account)
    decreases |a|
  {
    if a == [] {
    } else {
      TotalsIgnoreStatus(a[..|a| - 1], b[..|a| - 1], account);
    }
  }

  lemma ReconciliationKeepsTotals(ledger: seq<LedgerEntry>, ref: string, status: ReconciliationStatus)
    requires RunningTotals(ledger)
    ensures RunningTotals(SetReconciliation(ledger, ref, status))
  {
    var l := SetReconciliation(ledger, ref, status);
    forall k | 0 <= k < |l| ensures l[k].cumulativeAmountKobo == InflowTotal(l[..k + 1], l[k].account) {
      TotalsIgnoreStatus(ledger[..k + 1], l[..k + 1], l[k].account);
    }
  }

  lemma ReconciliationKeepsRefs(ledger: seq<LedgerEntry>, ref: string, status: ReconciliationStatus)
    requires RefsUnique(ledger)
    ensures RefsUnique(SetReconciliation(ledger, ref, status))
  {
    var l := SetReconciliation(ledger, ref, status);
    forall i, j | 0 <= i < j < |l| ensures l[i].transactionRef != l[j].transactionRef {
      assert ledger[i].transactionRef != ledger[j].transactionRef;
    }
  }

  lemma {:induction false} TotalsGrow(ledger: seq<LedgerEntry>, i: nat, j: nat, account: string)
    requires i <= j <= |ledger|
    ensures InflowTotal(ledger[..i], account) <= InflowTotal(ledger[..j], account)
    decreases j - i
  {
    if i == j {
    } else {
      TotalsGrow(ledger, i, j - 1, account);
      assert ledger[..j][..j - 1] == ledger[..j - 1];
    }
  }

  /** On one account, a rule bounded only by `cumulative_gte` that matches one inflow matches every later one. */
  lemma ThresholdPersists(ledger: seq<LedgerEntry>, i: nat, j: nat, c: InflowCondition)
    requires RunningTotals(ledger) && i <= j < |ledger| && ledger[i].account == ledger[j].account
    requires OnlyCumulative(c)
    requires MatchesInflow(c, ledger[i].amountKobo, ledger[i].cumulativeAmountKobo)
    ensures MatchesInflow(c, ledger[j].amountKobo, ledger[j].cumulativeAmountKobo)
  {
    TotalsGrow(ledger, i + 1, j + 1, ledger[i].account);
  }
}
