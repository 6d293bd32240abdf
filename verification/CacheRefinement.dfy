/** The O(1) balance read against the full sum, over every run. */
module CacheRefinement {
  import opened Wrappers
  import opened AccountStatuses
  import opened BucketLedger
  import opened Treasury

  lemma CreditKeepsLaw(s: State, b: BucketId, amount: nat, reference: string, source: string)
    requires CacheLaw(s.entries)
    ensures CacheLaw(s.entries + [CreditEntry(s, b, amount, reference, source)])
  {
    var e := CreditEntry(s, b, amount, reference, source);
    BalanceAppend(s.entries, e, b);
    ReadersAppend(s.entries, e, b);
    CacheLawAppend(s.entries, e);
  }

  lemma BankDebitKeepsLaw(s: State, k: nat, suffix: string)
    requires CacheLaw(s.entries) && k < |s.settlements|
    ensures CacheLaw(s.entries + [BankDebit(s, k, suffix)])
  {
    var e := BankDebit(s, k, suffix);
    BalanceAppend(s.entries, e, e.bucket);
    ReadersAppend(s.entries, e, e.bucket);
    CacheLawAppend(s.entries, e);
  }

  /** A debit on one bucket and a credit on another or, for a settlement, on the same bucket; both
      cumulative amounts are computed from the sums before the pair. */
  lemma PairKeepsLaw(entries: seq<Entry>, debit: Entry, credit: Entry)
    requires CacheLaw(entries)
    requires debit.entryType == DEBIT && credit.entryType == CREDIT && debit.amountKobo == credit.amountKobo
    requires debit.cumulativeAmountKobo == ComputeBalance(entries, debit.bucket) - debit.amountKobo
    requires credit.cumulativeAmountKobo == ComputeBalance(entries, credit.bucket) + credit.amountKobo
    requires debit.origin.TransferOut? || debit.origin.SettledOut?
    requires (credit.origin.TransferIn? && debit.bucket != credit.bucket)
          || (credit.origin.SettledIn? && credit.origin.from == debit.bucket)
    ensures CacheLaw(entries + ([debit] + [credit]))
    ensures debit.bucket == credit.bucket ==> Drift(entries + ([debit] + [credit]), debit.bucket) == debit.amountKobo
    ensures debit.bucket != credit.bucket ==>
      Drift(entries + ([debit] + [credit]), debit.bucket) == Drift(entries + ([debit] + [credit]), credit.bucket) == 0
  {
    var one := entries + [debit];
    BalanceAppend(entries, debit, debit.bucket);
    BalanceAppend(entries, debit, credit.bucket);
    ReadersAppend(entries, debit, debit.bucket);
    CacheLawAppend(entries, debit);
    BalanceAppend(one, credit, credit.bucket);
    ReadersAppend(one, credit, debit.bucket);
    ReadersAppend(one, credit, credit.bucket);
    CacheLawAppend(one, credit);
    assert entries + ([debit] + [credit]) == one + [credit];
  }

  /** Every step keeps the law, self-settlements included. */
  lemma StepKeepsLaw(s: State, a: Action)
    requires CacheLaw(s.entries)
    ensures CacheLaw(After(s, a).entries)
  {
    match a
    case DoCredit(b, amount, reference, source) => CreditKeepsLaw(s, b, amount, reference, source);
    case DoTransfer(business, src, dst, amount, uuid) =>
      if Step(s, a).Committed? {
        var pair := TransferEntries(s, BucketId(business, src), BucketId(business, dst), amount, uuid);
        PairKeepsLaw(s.entries, pair[0], pair[1]);
      }
    case DoCompleteBank(k, suffix, _) => if k < |s.settlements| { BankDebitKeepsLaw(s, k, suffix); }
    case DoSettleInternal(k, uuid, _) => InternalKeepsLaw(s, a);
    case _ =>
  }

  lemma InternalKeepsLaw(s: State, a: Action)
    requires CacheLaw(s.entries) && a.DoSettleInternal?
    ensures CacheLaw(After(s, a).entries)
  {
    var k := a.settlement;
    if k < |s.settlements| && After(s, a).entries != s.entries {
      var st := s.settlements[k];
      var pair := InternalEntries(s, k, BucketId(st.bucket.businessId, st.destination.bucketRef.value), a.uuid);
      PairKeepsLaw(s.entries, pair[0], pair[1]);
    }
  }

  /** Exact law of the O(1) read: in every reachable state, for every bucket, it exceeds the full sum
      by the drift that the history shows. No side condition. */
  lemma {:induction false} CacheLawHolds(s: State, actions: seq<Action>)
    requires CacheLaw(s.entries)
    ensures CacheLaw(Run(s, actions).entries)
    decreases |actions|
  {
    if actions == [] {
    } else {
      StepKeepsLaw(s, actions[0]);
      CacheLawHolds(After(s, actions[0]), actions[1..]);
    }
  }

  // ----- The cache agrees when no settlement pays its own bucket

  predicate SelfSettling(st: Settlement) {
    st.destination == ToBucket(Some(st.bucket.bucketRef))
  }

  predicate ReservesForItself(a: Action) {
    a.DoReserve? && a.destination == ToBucket(Some(a.bucket.bucketRef))
  }

  ghost predicate NoSelfSettlement(actions: seq<Action>) {
    forall i :: 0 <= i < |actions| ==> !ReservesForItself(actions[i])
  }

  ghost predicate DriftFree(s: State) {
    && (forall b :: Drift(s.entries, b) == 0)
    && (forall k :: 0 <= k < |s.settlements| ==> !SelfSettling(s.settlements[k]))
  }

  lemma DriftAfterAppend(entries: seq<Entry>, e: Entry)
    requires forall b :: Drift(entries, b) == 0
    requires !(e.origin.SettledIn? && e.origin.from == e.bucket)
    ensures forall b :: Drift(entries + [e], b) == 0
  {
    forall b ensures Drift(entries + [e], b) == 0 {
      ReadersAppend(entries, e, b);
    }
  }

  lemma DriftAfterPair(entries: seq<Entry>, e: Entry, f: Entry)
    requires forall b :: Drift(entries, b) == 0
    requires !(e.origin.SettledIn? && e.origin.from == e.bucket)
    requires !(f.origin.SettledIn? && f.origin.from == f.bucket)
    ensures forall b :: Drift(entries + ([e] + [f]), b) == 0
  {
    DriftAfterAppend(entries, e);
    DriftAfterAppend(entries + [e], f);
    assert entries + ([e] + [f]) == entries + [e] + [f];
  }

  lemma BankKeepsDriftFree(s: State, a: Action)
    requires DriftFree(s) && a.DoCompleteBank?
    ensures DriftFree(After(s, a))
  {
    if a.settlement < |s.settlements| { DriftAfterAppend(s.entries, BankDebit(s, a.settlement, a.suffix)); }
  }

  lemma InternalKeepsDriftFree(s: State, a: Action)
    requires DriftFree(s) && a.DoSettleInternal?
    ensures DriftFree(After(s, a))
  {
    var k := a.settlement;
    if k < |s.settlements| && After(s, a).entries != s.entries {
      var st := s.settlements[k];
      var pair := InternalEntries(s, k, BucketId(st.bucket.businessId, st.destination.bucketRef.value), a.uuid);
      DriftAfterPair(s.entries, pair[0], pair[1]);
    }
  }

  lemma StepKeepsDriftFree(s: State, a: Action)
    requires DriftFree(s) && !ReservesForItself(a)
    ensures DriftFree(After(s, a))
  {
    match a
    case DoCredit(b, amount, reference, source) => DriftAfterAppend(s.entries, CreditEntry(s, b, amount, reference, source));
    case DoTransfer(business, src, dst, amount, uuid) =>
      var pair := TransferEntries(s, BucketId(business, src), BucketId(business, dst), amount, uuid);
      DriftAfterPair(s.entries, pair[0], pair[1]);
    case DoCompleteBank(_, _, _) => BankKeepsDriftFree(s, a);
    case DoSettleInternal(_, _, _) => InternalKeepsDriftFree(s, a);
    case _ =>
  }

  lemma {:induction false} RunKeepsDriftFree(s: State, actions: seq<Action>)
    requires DriftFree(s) && NoSelfSettlement(actions)
    ensures DriftFree(Run(s, actions))
    decreases |actions|
  {
    if actions == [] {
    } else {
      StepKeepsDriftFree(s, actions[0]);
      RunKeepsDriftFree(After(s, actions[0]), actions[1..]);
    }
  }

  /** Refinement: without self-settlements the O(1) read is the full sum, in every run, for every bucket. */
  lemma CacheRefinesSum(actions: seq<Action>, b: BucketId)
    requires NoSelfSettlement(actions)
    ensures LatestBalance(Run(INITIAL, actions).entries, b) == ComputeBalance(Run(INITIAL, actions).entries, b)
  {
    CacheLawHolds(INITIAL, actions);
    RunKeepsDriftFree(INITIAL, actions);
  }

  /** A committed internal settlement leaves its source bucket's cache exact if and only if the two
      buckets differ; otherwise the cache is too high by exactly the settled amount. */
  lemma InternalSettlementDrift(s: State, k: nat, uuid: string)
    requires CacheLaw(s.entries) && k < |s.settlements| && s.settlements[k].amountKobo >= 1
    requires After(s, DoSettleInternal(k, uuid, false)).entries != s.entries
    ensures var t, b := After(s, DoSettleInternal(k, uuid, false)), s.settlements[k].bucket;
      && (LatestBalance(t.entries, b) == Balance(t, b) <==> !SelfSettling(s.settlements[k]))
      && (SelfSettling(s.settlements[k]) ==>
            Balance(t, b) == Balance(s, b) && LatestBalance(t.entries, b) == Balance(t, b) + s.settlements[k].amountKobo)
  {
    var a := DoSettleInternal(k, uuid, false);
    var st := s.settlements[k];
    var dest := BucketId(st.bucket.businessId, st.destination.bucketRef.value);
    var pair := InternalEntries(s, k, dest, uuid);
    assert After(s, a).entries == s.entries + ([pair[0]] + [pair[1]]);
    PairKeepsLaw(s.entries, pair[0], pair[1]);
    BalanceAppend(s.entries, pair[0], st.bucket);
    BalanceAppend(s.entries + [pair[0]], pair[1], st.bucket);
    assert s.entries + ([pair[0]] + [pair[1]]) == s.entries + [pair[0]] + [pair[1]];
    assert st.bucket == dest <==> SelfSettling(st);
  }

  /** Bank completions carry a drift on; the next row that is written from a full sum removes it. */
  lemma DriftCarriedOrHealed(s: State, a: Action, b: BucketId)
    requires CacheLaw(s.entries)
    ensures a.DoCompleteBank? ==> Drift(After(s, a).entries, b) == Drift(s.entries, b)
    ensures a.DoCredit? && a.bucket == b && After(s, a) != s ==>
      LatestBalance(After(s, a).entries, b) == Balance(After(s, a), b)
    ensures a.DoTransfer? && After(s, a) != s
            && (b == BucketId(a.business, a.sourceRef) || b == BucketId(a.business, a.destRef)) ==>
      LatestBalance(After(s, a).entries, b) == Balance(After(s, a), b)
  {
    StepKeepsLaw(s, a);
    match a
    case DoCompleteBank(k, suffix, _) =>
      if k < |s.settlements| { ReadersAppend(s.entries, BankDebit(s, k, suffix), b); }
    case DoCredit(c, amount, reference, source) => ReadersAppend(s.entries, CreditEntry(s, c, amount, reference, source), b);
    case DoTransfer(business, src, dst, amount, uuid) =>
      if After(s, a) != s {
        var pair := TransferEntries(s, BucketId(business, src), BucketId(business, dst), amount, uuid);
        PairKeepsLaw(s.entries, pair[0], pair[1]);
      }
    case _ =>
  }

  // ----- A self-settlement is possible

  const SAVINGS := BucketId("acme", "savings")

  const SELF_SETTLING_RUN: seq<Action> := [
    DoProvision(SAVINGS), DoCredit(SAVINGS, 100, "a", "tx"),
    DoReserve(SAVINGS, "s", 100, ToBucket(Some("savings")), ACTIVE),
    DoMarkProcessing(0), DoSettleInternal(0, "u", false)]

  lemma SelfSettlementCredits() returns (s: State)
    ensures s == Run(INITIAL, SELF_SETTLING_RUN[..2])
    ensures s == State(map[SAVINGS := ACTIVE], [Entry(SAVINGS, CREDIT, 100, 100, "a", Allocation("tx"))], [], [])
  {
    var run := SELF_SETTLING_RUN;
    RunSnoc(INITIAL, [], run[0]);
    assert [] + [run[0]] == run[..1];
    RunSnoc(INITIAL, run[..1], run[1]);
    assert run[..1] + [run[1]] == run[..2];
    s := Run(INITIAL, run[..2]);
    assert s.entries == [Entry(SAVINGS, CREDIT, 100, 100, "a", Allocation("tx"))];
  }

  lemma SelfSettlementReaches() returns (s: State)
    ensures s == Run(INITIAL, SELF_SETTLING_RUN[..4])
    ensures s.buckets == map[SAVINGS := ACTIVE]
    ensures s.entries == [Entry(SAVINGS, CREDIT, 100, 100, "a", Allocation("tx"))]
    ensures s.settlements == [Settlement("s", SAVINGS, 100, PROCESSING, ToBucket(Some("savings")), Processing, false)]
  {
    var run := SELF_SETTLING_RUN;
    var s2 := SelfSettlementCredits();
    RunSnoc(INITIAL, run[..2], run[2]);
    assert run[..2] + [run[2]] == run[..3];
    var s3 := Run(INITIAL, run[..3]);
    assert LatestBalance(s2.entries, SAVINGS) == 100 && ReservedOn(s2, SAVINGS) == 0;
    assert s3.settlements == [Settlement("s", SAVINGS, 100, PENDING, ToBucket(Some("savings")), Reserved, false)];
    RunSnoc(INITIAL, run[..3], run[3]);
    assert run[..3] + [run[3]] == run[..4];
    s := Run(INITIAL, run[..4]);
    assert s.settlements == [Settlement("s", SAVINGS, 100, PROCESSING, ToBucket(Some("savings")), Processing, false)];
  }

  /** After one self-settlement of the whole bucket the O(1) read reports twice the money. */
  lemma SelfSettlementDriftsCache()
    ensures var t := Run(INITIAL, SELF_SETTLING_RUN);
      Balance(t, SAVINGS) == 100 && LatestBalance(t.entries, SAVINGS) == 200
  {
    var s := SelfSettlementReaches();
    var run := SELF_SETTLING_RUN;
    RunSnoc(INITIAL, run[..4], run[4]);
    assert run[..4] + [run[4]] == run;
    BalanceAppend([], s.entries[0], SAVINGS);
    assert [] + [s.entries[0]] == s.entries;
    CacheLawHolds(INITIAL, run[..4]);
    var pair := InternalEntries(s, 0, SAVINGS, "u");
    assert After(s, run[4]).entries == s.entries + pair;
    InternalSettlementDrift(s, 0, "u");
  }
}
