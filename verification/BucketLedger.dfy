/** The append-only bucket ledger: CREDIT/DEBIT rows that each carry a running balance,
    the two ways of reading a balance, and the exact relation between them. */
module BucketLedger {

  /** A bucket is identified by its unique key (businessId, bucketRef). */
  datatype BucketId = BucketId(businessId: string, bucketRef: string)

  datatype EntryType = CREDIT | DEBIT

  /** Which operation wrote a row. This is history, not a column: the source encodes
      it only loosely, in the text of the reference. */
  datatype Origin =
    | Allocation(source: string)  // the inflow it was derived from
    | TransferOut
    | TransferIn
    | SettledToBank(settlement: nat)
    | SettledOut(settlement: nat)
    | SettledIn(settlement: nat, from: BucketId)

  datatype Entry = Entry(
    bucket: BucketId,
    entryType: EntryType,
    amountKobo: nat,
    cumulativeAmountKobo: int,
    reference: string,
    origin: Origin)

  /** What can be summed over the ledger. */
  datatype Measure =
    | Credited(bucket: BucketId)
    | Debited(bucket: BucketId)
    | NetOf(businessId: string)
    | AllocatedTo(businessId: string)
    | AllocatedFrom(source: string)
    | BankDebitsOf(businessId: string)
    | BankDebits
    | DebitCountOfSettlement(settlement: nat)

  predicate IsBankDebit(e: Entry) {
    e.origin.SettledToBank?
  }

  /** The row is the debit that settlement k wrote on its source bucket. */
  predicate IsDebitOfSettlement(e: Entry, k: nat) {
    e.entryType == DEBIT && (e.origin == SettledToBank(k) || e.origin == SettledOut(k))
  }

  function Signed(e: Entry): int {
    if e.entryType == CREDIT then e.amountKobo else 0 - e.amountKobo as int
  }

  function Weight(m: Measure, e: Entry): int {
    match m
    case Credited(b) => if e.bucket == b && e.entryType == CREDIT then e.amountKobo else 0
    case Debited(b) => if e.bucket == b && e.entryType == DEBIT then e.amountKobo else 0
    case NetOf(business) => if e.bucket.businessId == business then Signed(e) else 0
    case AllocatedTo(business) => if e.bucket.businessId == business && e.origin.Allocation? then e.amountKobo else 0
    case AllocatedFrom(source) => if e.origin == Allocation(source) then e.amountKobo else 0
    case BankDebitsOf(business) => if e.bucket.businessId == business && IsBankDebit(e) then e.amountKobo else 0
    case BankDebits => if IsBankDebit(e) then e.amountKobo else 0
    case DebitCountOfSettlement(k) => if IsDebitOfSettlement(e, k) then 1 else 0
  }

  function Total(m: Measure, entries: seq<Entry>): int {
    if entries == [] then 0
    else Total(m, entries[..|entries| - 1]) + Weight(m, entries[|entries| - 1])
  }

  lemma TotalAppend(m: Measure, entries: seq<Entry>, e: Entry)
    ensures Total(m, entries + [e]) == Total(m, entries) + Weight(m, e)
  {
    assert (entries + [e])[..|entries|] == entries;
  }

  // ----- The two readers of a balance

  /** The full sum: SUM(CREDIT) - SUM(DEBIT). */
  function ComputeBalance(entries: seq<Entry>, b: BucketId): int {
    Total(Credited(b), entries) - Total(Debited(b), entries)
  }

  /** The O(1) read: the cumulative amount on the bucket's most recent row, or 0. */
  function LatestBalance(entries: seq<Entry>, b: BucketId): int {
    if entries == [] then 0
    else
      var last := entries[|entries| - 1];
      if last.bucket == b then last.cumulativeAmountKobo
      else LatestBalance(entries[..|entries| - 1], b)
  }

  /** How far the O(1) read is off, told from the shape of the history alone: rows written by a
      bank completion inherit the error, a self-settlement sets it to its amount, and every other
      row on the bucket resets it. */
  function Drift(entries: seq<Entry>, b: BucketId): nat {
    if entries == [] then 0
    else
      var last := entries[|entries| - 1];
      var before := entries[..|entries| - 1];
      if last.bucket != b || last.origin.SettledToBank? then Drift(before, b)
      else if last.origin.SettledIn? && last.origin.from == b then last.amountKobo
      else 0
  }

  ghost predicate CacheLaw(entries: seq<Entry>) {
    forall b :: LatestBalance(entries, b) == ComputeBalance(entries, b) + Drift(entries, b)
  }

  lemma BalanceAppend(entries: seq<Entry>, e: Entry, b: BucketId)
    ensures ComputeBalance(entries + [e], b)
         == ComputeBalance(entries, b) + (if e.bucket == b then Signed(e) else 0)
  {
    TotalAppend(Credited(b), entries, e);
    TotalAppend(Debited(b), entries, e);
  }

  lemma PairBalance(entries: seq<Entry>, e: Entry, f: Entry, b: BucketId)
    ensures ComputeBalance(entries + ([e] + [f]), b)
         == ComputeBalance(entries, b) + (if e.bucket == b then Signed(e) else 0) + (if f.bucket == b then Signed(f) else 0)
  {
    BalanceAppend(entries, e, b);
    BalanceAppend(entries + [e], f, b);
    assert entries + ([e] + [f]) == entries + [e] + [f];
  }

  lemma ReadersAppend(entries: seq<Entry>, e: Entry, b: BucketId)
    ensures e.bucket == b ==> LatestBalance(entries + [e], b) == e.cumulativeAmountKobo
    ensures e.bucket != b ==> LatestBalance(entries + [e], b) == LatestBalance(entries, b)
    ensures e.bucket != b || e.origin.SettledToBank? ==> Drift(entries + [e], b) == Drift(entries, b)
    ensures e.bucket == b && !e.origin.SettledToBank? ==>
      Drift(entries + [e], b) == if e.origin.SettledIn? && e.origin.from == b then e.amountKobo else 0
  {
    assert (entries + [e])[..|entries|] == entries;
  }

  /** A row keeps the law when its own cumulative amount obeys it. */
  lemma CacheLawAppend(entries: seq<Entry>, e: Entry)
    requires forall b :: b != e.bucket ==>
      LatestBalance(entries, b) == ComputeBalance(entries, b) + Drift(entries, b)
    requires e.cumulativeAmountKobo
          == ComputeBalance(entries + [e], e.bucket) + Drift(entries + [e], e.bucket)
    ensures CacheLaw(entries + [e])
  {
    forall b
      ensures LatestBalance(entries + [e], b) == ComputeBalance(entries + [e], b) + Drift(entries + [e], b)
    {
      BalanceAppend(entries, e, b);
      ReadersAppend(entries, e, b);
    }
  }

  // ----- The unique reference column

  predicate HasReference(entries: seq<Entry>, reference: string) {
    exists i :: 0 <= i < |entries| && entries[i].reference == reference
  }

  predicate ReferencesUnique(entries: seq<Entry>) {
    forall i, j :: 0 <= i < j < |entries| ==> entries[i].reference != entries[j].reference
  }

  function EntryWith(entries: seq<Entry>, reference: string): (e: Entry)
    requires HasReference(entries, reference)
    ensures e in entries && e.reference == reference
  {
    if entries[|entries| - 1].reference == reference then entries[|entries| - 1]
    else EntryWith(entries[..|entries| - 1], reference)
  }

  // ----- A business's buckets partition its net total

  function SumOfBalances(entries: seq<Entry>, buckets: seq<BucketId>): int {
    if buckets == [] then 0
    else SumOfBalances(entries, buckets[..|buckets| - 1]) + ComputeBalance(entries, buckets[|buckets| - 1])
  }

  ghost predicate ListsBuckets(buckets: seq<BucketId>, business: string, entries: seq<Entry>) {
    && (forall i, j :: 0 <= i < j < |buckets| ==> buckets[i] != buckets[j])
    && (forall b :: b in buckets ==> b.businessId == business)
    && (forall e :: e in entries && e.bucket.businessId == business ==> e.bucket in buckets)
  }

  /** Adding one row moves exactly one of the listed balances. */
  lemma {:induction false} SumOfBalancesAppend(entries: seq<Entry>, e: Entry, buckets: seq<BucketId>)
    requires forall i, j :: 0 <= i < j < |buckets| ==> buckets[i] != buckets[j]
    ensures SumOfBalances(entries + [e], buckets)
         == SumOfBalances(entries, buckets) + (if e.bucket in buckets then Signed(e) else 0)
    decreases |buckets|
  {
    if buckets == [] {
    } else {
      var n := |buckets| - 1;
      SumOfBalancesAppend(entries, e, buckets[..n]);
      BalanceAppend(entries, e, buckets[n]);
      assert e.bucket in buckets <==> e.bucket in buckets[..n] || e.bucket == buckets[n];
      assert buckets[n] !in buckets[..n];
    }
  }

  lemma {:induction false} SumOfBalancesEmpty(buckets: seq<BucketId>)
    ensures SumOfBalances([], buckets) == 0
    decreases |buckets|
  {
    if buckets == [] {
    } else {
      SumOfBalancesEmpty(buckets[..|buckets| - 1]);
    }
  }

  /** Summing a business's bucket balances one by one gives its net total. */
  lemma {:induction false} BalancesPartitionNet(entries: seq<Entry>, business: string, buckets: seq<BucketId>)
    requires ListsBuckets(buckets, business, entries)
    ensures SumOfBalances(entries, buckets) == Total(NetOf(business), entries)
    decreases |entries|
  {
    if entries == [] {
      SumOfBalancesEmpty(buckets);
    } else {
      var n := |entries| - 1;
      assert entries == entries[..n] + [entries[n]];
      BalancesPartitionNet(entries[..n], business, buckets);
      SumOfBalancesAppend(entries[..n], entries[n], buckets);
    }
  }
}
