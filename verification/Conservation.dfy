/** Money is conserved: a business's buckets together hold what was allocated to it minus what its
    completed bank settlements took out. */
module Conservation {
  import opened BucketLedger
  import opened Treasury
  import opened SettlementProtocol

  /** Rows and settlements only ever name provisioned buckets (the foreign keys). */
  ghost predicate KnownBuckets(s: State) {
    && (forall i :: 0 <= i < |s.entries| ==> s.entries[i].bucket in s.buckets)
    && (forall k :: 0 <= k < |s.settlements| ==> s.settlements[k].bucket in s.buckets)
  }

  ghost predicate Conserved(entries: seq<Entry>) {
    forall business :: Total(NetOf(business), entries)
                    == Total(AllocatedTo(business), entries) - Total(BankDebitsOf(business), entries)
  }

  lemma StepKeepsKnownBuckets(s: State, a: Action)
    requires KnownBuckets(s)
    ensures KnownBuckets(After(s, a)) && s.buckets.Keys <= After(s, a).buckets.Keys
  {
    match a
    case DoProvision(_) =>
    case DoClosing(_) =>
    case DoCredit(_, _, _, _) =>
    case DoTransfer(_, _, _, _, _) =>
    case DoReserve(_, _, _, _, _) =>
    case DoCompleteBank(_, _, _) => CompletionKeepsKnownBuckets(s, a);
    case DoSettleInternal(_, _, _) => CompletionKeepsKnownBuckets(s, a);
    case _ =>
  }

  lemma CompletionKeepsKnownBuckets(s: State, a: Action)
    requires KnownBuckets(s) && (a.DoCompleteBank? || a.DoSettleInternal?)
    ensures KnownBuckets(After(s, a)) && After(s, a).buckets == s.buckets
  {
    if a.settlement < |s.settlements| {
      assert s.settlements[a.settlement].bucket in s.buckets;
    }
  }

  lemma RowKeepsConserved(entries: seq<Entry>, e: Entry)
    requires Conserved(entries)
    requires (e.entryType == CREDIT && e.origin.Allocation?) || (e.entryType == DEBIT && e.origin.SettledToBank?)
    ensures Conserved(entries + [e])
  {
    forall business
      ensures Total(NetOf(business), entries + [e])
           == Total(AllocatedTo(business), entries + [e]) - Total(BankDebitsOf(business), entries + [e])
    {
      TotalAppend(NetOf(business), entries, e);
      TotalAppend(AllocatedTo(business), entries, e);
      TotalAppend(BankDebitsOf(business), entries, e);
    }
  }

  /** A debit and a credit of one amount inside one business cancel out. */
  lemma PairTotals(entries: seq<Entry>, e: Entry, f: Entry, business: string)
    requires e.entryType == DEBIT && f.entryType == CREDIT && e.amountKobo == f.amountKobo
    requires e.bucket.businessId == f.bucket.businessId
    requires !e.origin.Allocation? && !f.origin.Allocation? && !IsBankDebit(e) && !IsBankDebit(f)
    ensures Total(NetOf(business), entries + ([e] + [f])) == Total(NetOf(business), entries)
    ensures Total(AllocatedTo(business), entries + ([e] + [f])) == Total(AllocatedTo(business), entries)
    ensures Total(BankDebitsOf(business), entries + ([e] + [f])) == Total(BankDebitsOf(business), entries)
  {
    assert entries + ([e] + [f]) == entries + [e] + [f];
    TotalAppend(NetOf(business), entries, e);
    TotalAppend(NetOf(business), entries + [e], f);
    TotalAppend(AllocatedTo(business), entries, e);
    TotalAppend(AllocatedTo(business), entries + [e], f);
    TotalAppend(BankDebitsOf(business), entries, e);
    TotalAppend(BankDebitsOf(business), entries + [e], f);
  }

  lemma PairKeepsConserved(entries: seq<Entry>, e: Entry, f: Entry)
    requires Conserved(entries)
    requires e.entryType == DEBIT && f.entryType == CREDIT && e.amountKobo == f.amountKobo
    requires e.bucket.businessId == f.bucket.businessId
    requires !e.origin.Allocation? && !f.origin.Allocation? && !IsBankDebit(e) && !IsBankDebit(f)
    ensures Conserved(entries + ([e] + [f]))
  {
    forall business
      ensures Total(NetOf(business), entries + ([e] + [f]))
           == Total(AllocatedTo(business), entries + ([e] + [f])) - Total(BankDebitsOf(business), entries + ([e] + [f]))
    {
      PairTotals(entries, e, f, business);
    }
  }

  lemma BankConserves(s: State, a: Action)
    requires AllCoherent(s) && Conserved(s.entries) && a.DoCompleteBank?
    ensures Conserved(After(s, a).entries)
  {
    BankShape(s, a);
    if a.settlement < |s.settlements| { RowKeepsConserved(s.entries, BankDebit(s, a.settlement, a.suffix)); }
  }

  lemma InternalConserves(s: State, a: Action)
    requires AllCoherent(s) && Conserved(s.entries) && a.DoSettleInternal?
    ensures Conserved(After(s, a).entries)
  {
    InternalShape(s, a);
    if a.settlement < |s.settlements| {
      var pair := InternalEntries(s, a.settlement, InternalDest(s.settlements[a.settlement]), a.uuid);
      PairKeepsConserved(s.entries, pair[0], pair[1]);
    }
  }

  lemma StepConserves(s: State, a: Action)
    requires AllCoherent(s) && Conserved(s.entries)
    ensures Conserved(After(s, a).entries)
  {
    match a
    case DoCredit(b, amount, reference, source) => RowKeepsConserved(s.entries, CreditEntry(s, b, amount, reference, source));
    case DoTransfer(business, src, dst, amount, uuid) =>
      var pair := TransferEntries(s, BucketId(business, src), BucketId(business, dst), amount, uuid);
      PairKeepsConserved(s.entries, pair[0], pair[1]);
    case DoCompleteBank(_, _, _) => BankConserves(s, a);
    case DoSettleInternal(_, _, _) => InternalConserves(s, a);
    case _ =>
  }

  lemma {:induction false} RunConserves(s: State, actions: seq<Action>)
    requires AllCoherent(s) && KnownBuckets(s) && Conserved(s.entries)
    ensures KnownBuckets(Run(s, actions)) && Conserved(Run(s, actions).entries)
    decreases |actions|
  {
    if actions == [] {
    } else {
      StepKeepsCoherent(s, actions[0]);
      StepKeepsKnownBuckets(s, actions[0]);
      StepConserves(s, actions[0]);
      RunConserves(After(s, actions[0]), actions[1..]);
    }
  }

  /** `buckets` lists each provisioned bucket of the business once. */
  ghost predicate ListsProvisioned(s: State, business: string, buckets: seq<BucketId>) {
    && (forall i, j :: 0 <= i < j < |buckets| ==> buckets[i] != buckets[j])
    && (forall b :: b in buckets <==> b in s.buckets && b.businessId == business)
  }

  /** In every run, the balances of a business's buckets add up to the allocations it received minus the
      amounts of its COMPLETED bank settlements. */
  lemma MoneyConserved(actions: seq<Action>, business: string, buckets: seq<BucketId>)
    requires ListsProvisioned(Run(INITIAL, actions), business, buckets)
    ensures var t := Run(INITIAL, actions);
      SumOfBalances(t.entries, buckets)
      == Total(AllocatedTo(business), t.entries) - SettlementTotal(CompletedToBankOf(business), t.settlements)
  {
    var t := Run(INITIAL, actions);
    RunConserves(INITIAL, actions);
    RunKeepsBooks(INITIAL, actions);
    assert ListsBuckets(buckets, business, t.entries);
    BalancesPartitionNet(t.entries, business, buckets);
  }

  // ----- Tenancy

  /** The business on whose behalf a step runs. */
  function Tenant(s: State, a: Action): string {
    match a
    case DoProvision(b) => b.businessId
    case DoClosing(Ask(b)) => b.businessId
    case DoClosing(step) => if step.closing < |s.closings| then s.closings[step.closing].bucket.businessId else ""
    case DoCredit(b, _, _, _) => b.businessId
    case DoTransfer(business, _, _, _, _) => business
    case DoReserve(b, _, _, _, _) => b.businessId
    case _ => if a.settlement < |s.settlements| then s.settlements[a.settlement].bucket.businessId else ""
  }

  lemma RowsOfOtherTenants(entries: seq<Entry>, e: Entry, b: BucketId)
    requires e.bucket.businessId != b.businessId
    ensures ComputeBalance(entries + [e], b) == ComputeBalance(entries, b)
    ensures LatestBalance(entries + [e], b) == LatestBalance(entries, b)
  {
    BalanceAppend(entries, e, b);
    ReadersAppend(entries, e, b);
  }

  lemma PairsOfOtherTenants(entries: seq<Entry>, e: Entry, f: Entry, b: BucketId)
    requires e.bucket.businessId != b.businessId && f.bucket.businessId != b.businessId
    ensures ComputeBalance(entries + ([e] + [f]), b) == ComputeBalance(entries, b)
    ensures LatestBalance(entries + ([e] + [f]), b) == LatestBalance(entries, b)
  {
    RowsOfOtherTenants(entries, e, b);
    RowsOfOtherTenants(entries + [e], f, b);
    assert entries + ([e] + [f]) == entries + [e] + [f];
  }

  lemma ReservedOfOtherTenants(s: State, a: Action, b: BucketId)
    requires AllCoherent(s) && b.businessId != Tenant(s, a)
    ensures ReservedOn(After(s, a), b) == ReservedOn(s, b)
  {
    var t := After(s, a);
    if a.DoReserve? {
      if t != s { ReservedAppend(s.settlements, t.settlements[|s.settlements|], b); }
    } else if t.settlements != s.settlements {
      StepExtends(s, a);
      var k := a.settlement;
      assert t.settlements == s.settlements[k := t.settlements[k]];
      ReservedUpdate(s.settlements, k, t.settlements[k], b);
    }
  }

  lemma TransferOrCreditElsewhere(s: State, a: Action, b: BucketId)
    requires (a.DoCredit? || a.DoTransfer?) && b.businessId != Tenant(s, a)
    ensures Balance(After(s, a), b) == Balance(s, b)
    ensures LatestBalance(After(s, a).entries, b) == LatestBalance(s.entries, b)
  {
    if a.DoCredit? {
      RowsOfOtherTenants(s.entries, CreditEntry(s, a.bucket, a.amount, a.reference, a.source), b);
    } else {
      var pair := TransferEntries(s, BucketId(a.business, a.sourceRef), BucketId(a.business, a.destRef), a.amount, a.uuid);
      PairsOfOtherTenants(s.entries, pair[0], pair[1], b);
    }
  }

  lemma SettlementElsewhere(s: State, a: Action, b: BucketId)
    requires AllCoherent(s) && (a.DoCompleteBank? || a.DoSettleInternal?) && b.businessId != Tenant(s, a)
    ensures Balance(After(s, a), b) == Balance(s, b)
    ensures LatestBalance(After(s, a).entries, b) == LatestBalance(s.entries, b)
  {
    var k := a.settlement;
    if k < |s.settlements| {
      if a.DoCompleteBank? {
        BankShape(s, a);
        RowsOfOtherTenants(s.entries, BankDebit(s, k, a.suffix), b);
      } else {
        InternalShape(s, a);
        var pair := InternalEntries(s, k, InternalDest(s.settlements[k]), a.uuid);
        PairsOfOtherTenants(s.entries, pair[0], pair[1], b);
      }
    }
  }

  /** A step of one business changes no balance, cached balance or reservation of another's bucket. */
  lemma OtherTenantsUntouched(s: State, a: Action, b: BucketId)
    requires AllCoherent(s) && b.businessId != Tenant(s, a)
    ensures var t := After(s, a);
      && Balance(t, b) == Balance(s, b)
      && LatestBalance(t.entries, b) == LatestBalance(s.entries, b)
      && ReservedOn(t, b) == ReservedOn(s, b)
  {
    ReservedOfOtherTenants(s, a, b);
    match a
    case DoCredit(_, _, _, _) => TransferOrCreditElsewhere(s, a, b);
    case DoTransfer(_, _, _, _, _) => TransferOrCreditElsewhere(s, a, b);
    case DoCompleteBank(_, _, _) => SettlementElsewhere(s, a, b);
    case DoSettleInternal(_, _, _) => SettlementElsewhere(s, a, b);
    case _ =>
  }
}
