/** The settlement state machine: which statuses go with which phase, terminal statuses, and the
    accounting of debits against settlements and accepted bank transfers, over every run. */
module SettlementProtocol {
  import opened BucketLedger
  import opened Treasury

  /** What a row says about the request that owns it. */
  ghost predicate Coherent(st: Settlement) {
    && st.amountKobo >= 1
    && (st.nombaAccepted ==> st.destination == ToBank(true))
    && match st.phase
       case Reserved => st.status == PENDING && !st.nombaAccepted
       case Processing => st.status == PROCESSING && !st.nombaAccepted
       case Accepted => st.status == PROCESSING && st.nombaAccepted
       case Failing => st.status == PROCESSING
       case Finished =>
         && (st.status == COMPLETED || st.status == FAILED)
         && (st.status == COMPLETED && st.destination.ToBank? ==> st.nombaAccepted)
       case Abandoned => st.status == PENDING || st.status == PROCESSING
  }

  ghost predicate AllCoherent(s: State) {
    forall k :: 0 <= k < |s.settlements| ==> Coherent(s.settlements[k])
  }

  lemma StepKeepsCoherent(s: State, a: Action)
    requires AllCoherent(s)
    ensures AllCoherent(After(s, a))
  {
  }

  predicate Terminal(st: Settlement) {
    st.status == COMPLETED || st.status == FAILED
  }

  // ----- The shapes a settlement step can have

  predicate MovesOn(a: Action) {
    a.DoMarkProcessing? || a.DoCallNomba? || a.DoMarkFailed? || a.DoCrash?
  }

  /** Settlement k moves on without completing; the ledger does not change. */
  ghost predicate IsAdvance(s: State, t: State, k: nat) {
    && k < |s.settlements| == |t.settlements|
    && t.entries == s.entries
    && t.settlements == s.settlements[k := t.settlements[k]]
    && t.settlements[k].bucket == s.settlements[k].bucket
    && t.settlements[k].amountKobo == s.settlements[k].amountKobo
    && !Terminal(s.settlements[k]) && t.settlements[k].status != COMPLETED
  }

  /** Settlement k completes, together with its rows. */
  ghost predicate IsCompletion(s: State, t: State, k: nat, rows: seq<Entry>) {
    && k < |s.settlements|
    && t.entries == s.entries + rows
    && t.settlements == s.settlements[k := Complete(s.settlements[k])]
    && s.settlements[k].status == PROCESSING
  }

  lemma MovesOnShape(s: State, a: Action)
    requires AllCoherent(s) && MovesOn(a)
    ensures After(s, a) == s || IsAdvance(s, After(s, a), a.settlement)
  {
    if a.settlement < |s.settlements| { assert Coherent(s.settlements[a.settlement]); }
  }

  lemma BankShape(s: State, a: Action)
    requires AllCoherent(s) && a.DoCompleteBank?
    ensures var t, k := After(s, a), a.settlement;
      || t == s
      || IsAdvance(s, t, k)
      || (IsCompletion(s, t, k, [BankDebit(s, k, a.suffix)])
          && s.settlements[k].destination.ToBank? && s.settlements[k].nombaAccepted)
  {
    if a.settlement < |s.settlements| { assert Coherent(s.settlements[a.settlement]); }
  }

  function InternalDest(st: Settlement): BucketId {
    match st.destination
    case ToBucket(Some(ref)) => BucketId(st.bucket.businessId, ref)
    case _ => st.bucket
  }

  lemma InternalShape(s: State, a: Action)
    requires AllCoherent(s) && a.DoSettleInternal?
    ensures var t, k := After(s, a), a.settlement;
      || t == s
      || IsAdvance(s, t, k)
      || (k < |s.settlements| && s.settlements[k].destination.ToBucket?
          && var pair := InternalEntries(s, k, InternalDest(s.settlements[k]), a.uuid);
             IsCompletion(s, t, k, [pair[0]] + [pair[1]]))
  {
    if a.settlement < |s.settlements| { assert Coherent(s.settlements[a.settlement]); }
  }

  // ----- COMPLETED and FAILED are never left

  /** Rows are never removed; identity, bucket, amount and destination never change; a terminal row never changes. */
  ghost predicate Extends(s: State, t: State) {
    && |s.settlements| <= |t.settlements|
    && forall k :: 0 <= k < |s.settlements| ==>
         && t.settlements[k].id == s.settlements[k].id
         && t.settlements[k].bucket == s.settlements[k].bucket
         && t.settlements[k].amountKobo == s.settlements[k].amountKobo
         && t.settlements[k].destination == s.settlements[k].destination
         && (s.settlements[k].nombaAccepted ==> t.settlements[k].nombaAccepted)
         && (Terminal(s.settlements[k]) ==> t.settlements[k] == s.settlements[k])
  }

  lemma AdvanceExtends(s: State, t: State, k: nat)
    requires k < |s.settlements| == |t.settlements| && !Terminal(s.settlements[k])
    requires t.settlements == s.settlements[k := t.settlements[k]]
    requires t.settlements[k] == s.settlements[k].(status := t.settlements[k].status, phase := t.settlements[k].phase,
                                                   nombaAccepted := t.settlements[k].nombaAccepted)
    requires s.settlements[k].nombaAccepted ==> t.settlements[k].nombaAccepted
    ensures Extends(s, t)
  {
  }

  lemma SettlementStepExtends(s: State, a: Action)
    requires AllCoherent(s) && (MovesOn(a) || a.DoCompleteBank? || a.DoSettleInternal?)
    ensures Extends(s, After(s, a))
  {
    var k, t := a.settlement, After(s, a);
    if k < |s.settlements| && t.settlements != s.settlements {
      assert Coherent(s.settlements[k]);
      AdvanceExtends(s, t, k);
    }
  }

  lemma StepExtends(s: State, a: Action)
    requires AllCoherent(s)
    ensures Extends(s, After(s, a))
  {
    if MovesOn(a) || a.DoCompleteBank? || a.DoSettleInternal? {
      SettlementStepExtends(s, a);
    }
  }

  /** From any coherent state, in every run: terminal settlements stay exactly as they are. */
  lemma {:induction false} TerminalForever(s: State, actions: seq<Action>)
    requires AllCoherent(s)
    ensures AllCoherent(Run(s, actions)) && Extends(s, Run(s, actions))
    decreases |actions|
  {
    if actions == [] {
    } else {
      var t := After(s, actions[0]);
      StepKeepsCoherent(s, actions[0]);
      StepExtends(s, actions[0]);
      TerminalForever(t, actions[1..]);
    }
  }

  // ----- One debit per completed settlement, none otherwise

  /** The debit a settlement wrote carries its bucket, its amount and, for a bank, its kind. */
  ghost predicate OwnDebit(s: State, e: Entry) {
    match e.origin
    case SettledToBank(k) =>
      && e.entryType == DEBIT && k < |s.settlements|
      && e.bucket == s.settlements[k].bucket && e.amountKobo == s.settlements[k].amountKobo
      && s.settlements[k].destination.ToBank?
    case SettledOut(k) =>
      && e.entryType == DEBIT && k < |s.settlements|
      && e.bucket == s.settlements[k].bucket && e.amountKobo == s.settlements[k].amountKobo
      && s.settlements[k].destination.ToBucket?
    case SettledIn(k, source) =>
      && e.entryType == CREDIT && k < |s.settlements|
      && source == s.settlements[k].bucket && e.amountKobo == s.settlements[k].amountKobo
      && e.bucket.businessId == source.businessId
    case Allocation(_) => e.entryType == CREDIT
    case TransferOut => e.entryType == DEBIT
    case TransferIn => e.entryType == CREDIT
  }

  ghost predicate Accounted(s: State) {
    && AllCoherent(s)
    && (forall i :: 0 <= i < |s.entries| ==> OwnDebit(s, s.entries[i]))
    && (forall k: nat :: Total(DebitCountOfSettlement(k), s.entries)
                      == if k < |s.settlements| && s.settlements[k].status == COMPLETED then 1 else 0)
  }

  lemma CountAfterAppend(entries: seq<Entry>, e: Entry)
    ensures forall k: nat :: Total(DebitCountOfSettlement(k), entries + [e])
                          == Total(DebitCountOfSettlement(k), entries) + (if IsDebitOfSettlement(e, k) then 1 else 0)
  {
    forall k: nat
      ensures Total(DebitCountOfSettlement(k), entries + [e])
           == Total(DebitCountOfSettlement(k), entries) + (if IsDebitOfSettlement(e, k) then 1 else 0)
    {
      TotalAppend(DebitCountOfSettlement(k), entries, e);
    }
  }

  lemma CountAfterPair(entries: seq<Entry>, e: Entry, f: Entry)
    requires f.entryType == CREDIT
    ensures forall k: nat :: Total(DebitCountOfSettlement(k), entries + ([e] + [f]))
                          == Total(DebitCountOfSettlement(k), entries) + (if IsDebitOfSettlement(e, k) then 1 else 0)
  {
    CountAfterAppend(entries, e);
    CountAfterAppend(entries + [e], f);
    assert entries + ([e] + [f]) == entries + [e] + [f];
  }

  lemma OwnDebitsExtend(s: State, t: State)
    requires Accounted(s) && Extends(s, t)
    ensures forall i :: 0 <= i < |s.entries| ==> OwnDebit(t, s.entries[i])
  {
    forall i | 0 <= i < |s.entries| ensures OwnDebit(t, s.entries[i]) {
      assert OwnDebit(s, s.entries[i]);
    }
  }

  lemma BankCompletionAccounted(s: State, a: Action)
    requires Accounted(s) && a.DoCompleteBank?
    ensures Accounted(After(s, a))
  {
    var t, k := After(s, a), a.settlement;
    StepKeepsCoherent(s, a);
    StepExtends(s, a);
    OwnDebitsExtend(s, t);
    BankShape(s, a);
    if t != s && !IsAdvance(s, t, k) {
      CountAfterAppend(s.entries, BankDebit(s, k, a.suffix));
    }
  }

  lemma InternalSettlementAccounted(s: State, a: Action)
    requires Accounted(s) && a.DoSettleInternal?
    ensures Accounted(After(s, a))
  {
    var t, k := After(s, a), a.settlement;
    StepKeepsCoherent(s, a);
    StepExtends(s, a);
    OwnDebitsExtend(s, t);
    InternalShape(s, a);
    if t != s && !IsAdvance(s, t, k) {
      var pair := InternalEntries(s, k, InternalDest(s.settlements[k]), a.uuid);
      CountAfterPair(s.entries, pair[0], pair[1]);
    }
  }

  lemma CreditAccounted(s: State, a: Action)
    requires Accounted(s) && a.DoCredit?
    ensures Accounted(After(s, a))
  {
    CountAfterAppend(s.entries, CreditEntry(s, a.bucket, a.amount, a.reference, a.source));
  }

  lemma TransferAccounted(s: State, a: Action)
    requires Accounted(s) && a.DoTransfer?
    ensures Accounted(After(s, a))
  {
    var pair := TransferEntries(s, BucketId(a.business, a.sourceRef), BucketId(a.business, a.destRef), a.amount, a.uuid);
    CountAfterPair(s.entries, pair[0], pair[1]);
  }

  lemma ReserveAccounted(s: State, a: Action)
    requires Accounted(s) && a.DoReserve?
    ensures Accounted(After(s, a))
  {
    StepKeepsCoherent(s, a);
    StepExtends(s, a);
    OwnDebitsExtend(s, After(s, a));
  }

  lemma MovesOnAccounted(s: State, a: Action)
    requires Accounted(s) && MovesOn(a)
    ensures Accounted(After(s, a))
  {
    StepKeepsCoherent(s, a);
    StepExtends(s, a);
    OwnDebitsExtend(s, After(s, a));
    MovesOnShape(s, a);
  }

  lemma StepAccounted(s: State, a: Action)
    requires Accounted(s)
    ensures Accounted(After(s, a))
  {
    match a
    case DoProvision(_) =>
    case DoClosing(_) =>
    case DoCredit(_, _, _, _) => CreditAccounted(s, a);
    case DoTransfer(_, _, _, _, _) => TransferAccounted(s, a);
    case DoReserve(_, _, _, _, _) => ReserveAccounted(s, a);
    case DoCompleteBank(_, _, _) => BankCompletionAccounted(s, a);
    case DoSettleInternal(_, _, _) => InternalSettlementAccounted(s, a);
    case _ => MovesOnAccounted(s, a);
  }

  lemma {:induction false} RunAccounted(s: State, actions: seq<Action>)
    requires Accounted(s)
    ensures Accounted(Run(s, actions))
    decreases |actions|
  {
    if actions == [] {
    } else {
      StepAccounted(s, actions[0]);
      RunAccounted(After(s, actions[0]), actions[1..]);
    }
  }

  /** In every run, for every settlement: exactly one source DEBIT, on its bucket and of its amount,
      when it is COMPLETED, and none otherwise. */
  lemma OneDebitPerCompletedSettlement(actions: seq<Action>, k: nat)
    requires k < |Run(INITIAL, actions).settlements|
    ensures var t := Run(INITIAL, actions);
      && Total(DebitCountOfSettlement(k), t.entries) == (if t.settlements[k].status == COMPLETED then 1 else 0)
      && (forall e :: e in t.entries && IsDebitOfSettlement(e, k) ==>
            e.bucket == t.settlements[k].bucket && e.amountKobo == t.settlements[k].amountKobo)
  {
    RunAccounted(INITIAL, actions);
  }

  lemma {:induction false} CountedDebitExists(entries: seq<Entry>, e: Entry, k: nat)
    requires e in entries && IsDebitOfSettlement(e, k)
    ensures Total(DebitCountOfSettlement(k), entries) >= 1
    decreases |entries|
  {
    var n := |entries| - 1;
    CountNonNegative(entries[..n], k);
    if entries[n] == e {
    } else {
      assert e in entries[..n];
      CountedDebitExists(entries[..n], e, k);
    }
  }

  lemma {:induction false} CountNonNegative(entries: seq<Entry>, k: nat)
    ensures Total(DebitCountOfSettlement(k), entries) >= 0
    decreases |entries|
  {
    if entries == [] {
    } else {
      CountNonNegative(entries[..|entries| - 1], k);
    }
  }

  /** A bank DEBIT exists only for a transfer that Nomba accepted. */
  lemma BankDebitOnlyAfterAcceptance(actions: seq<Action>, e: Entry)
    requires e in Run(INITIAL, actions).entries && IsBankDebit(e)
    ensures var t := Run(INITIAL, actions);
      e.origin.settlement < |t.settlements| && t.settlements[e.origin.settlement].nombaAccepted
  {
    var t := Run(INITIAL, actions);
    RunAccounted(INITIAL, actions);
    assert OwnDebit(t, e);
    CountedDebitExists(t.entries, e, e.origin.settlement);
    assert Coherent(t.settlements[e.origin.settlement]);
  }

  // ----- Sum of bank debits against the sum of accepted transfers

  datatype SettlementMeasure = AcceptedTransfers | CompletedToBank | CompletedToBankOf(businessId: string)

  function SettlementWeight(m: SettlementMeasure, st: Settlement): nat {
    match m
    case AcceptedTransfers => if st.nombaAccepted then st.amountKobo else 0
    case CompletedToBank => if st.status == COMPLETED && st.destination.ToBank? then st.amountKobo else 0
    case CompletedToBankOf(business) =>
      if st.status == COMPLETED && st.destination.ToBank? && st.bucket.businessId == business then st.amountKobo else 0
  }

  function SettlementTotal(m: SettlementMeasure, settlements: seq<Settlement>): nat {
    if settlements == [] then 0
    else SettlementTotal(m, settlements[..|settlements| - 1])
         + SettlementWeight(m, settlements[|settlements| - 1])
  }

  lemma {:induction false} SettlementTotalUpdate(m: SettlementMeasure, settlements: seq<Settlement>, k: nat, st: Settlement)
    requires k < |settlements|
    ensures SettlementTotal(m, settlements[k := st])
         == SettlementTotal(m, settlements) - SettlementWeight(m, settlements[k]) + SettlementWeight(m, st)
    decreases |settlements|
  {
    var n := |settlements| - 1;
    if k == n {
      assert settlements[k := st][..n] == settlements[..n];
    } else {
      assert settlements[k := st][..n] == settlements[..n][k := st];
      SettlementTotalUpdate(m, settlements[..n], k, st);
    }
  }

  lemma SettlementTotalAppend(m: SettlementMeasure, settlements: seq<Settlement>, st: Settlement)
    ensures SettlementTotal(m, settlements + [st]) == SettlementTotal(m, settlements) + SettlementWeight(m, st)
  {
    assert (settlements + [st])[..|settlements|] == settlements;
  }

  /** The ledger's bank debits are the completed bank settlements, in total and per business. */
  ghost predicate BankBooksMatch(s: State) {
    && Total(BankDebits, s.entries) == SettlementTotal(CompletedToBank, s.settlements)
    && forall business :: Total(BankDebitsOf(business), s.entries)
                       == SettlementTotal(CompletedToBankOf(business), s.settlements)
  }

  lemma BankTotalsAfterAppend(entries: seq<Entry>, e: Entry)
    ensures Total(BankDebits, entries + [e]) == Total(BankDebits, entries) + (if IsBankDebit(e) then e.amountKobo else 0)
    ensures forall business ::
      Total(BankDebitsOf(business), entries + [e])
      == Total(BankDebitsOf(business), entries) + Weight(BankDebitsOf(business), e)
  {
    TotalAppend(BankDebits, entries, e);
    forall business
      ensures Total(BankDebitsOf(business), entries + [e])
           == Total(BankDebitsOf(business), entries) + Weight(BankDebitsOf(business), e)
    {
      TotalAppend(BankDebitsOf(business), entries, e);
    }
  }

  lemma BankTotalsAfterPair(entries: seq<Entry>, e: Entry, f: Entry)
    requires !IsBankDebit(e) && !IsBankDebit(f)
    ensures Total(BankDebits, entries + ([e] + [f])) == Total(BankDebits, entries)
    ensures forall business :: Total(BankDebitsOf(business), entries + ([e] + [f])) == Total(BankDebitsOf(business), entries)
  {
    BankTotalsAfterAppend(entries, e);
    BankTotalsAfterAppend(entries + [e], f);
    assert entries + ([e] + [f]) == entries + [e] + [f];
  }

  lemma SettlementTotalsAfterUpdate(settlements: seq<Settlement>, k: nat, st: Settlement)
    requires k < |settlements|
    ensures forall m ::
      SettlementTotal(m, settlements[k := st])
      == SettlementTotal(m, settlements) - SettlementWeight(m, settlements[k]) + SettlementWeight(m, st)
  {
    forall m
      ensures SettlementTotal(m, settlements[k := st])
           == SettlementTotal(m, settlements) - SettlementWeight(m, settlements[k]) + SettlementWeight(m, st)
    {
      SettlementTotalUpdate(m, settlements, k, st);
    }
  }

  lemma AdvanceKeepsBooks(s: State, t: State, k: nat)
    requires BankBooksMatch(s) && IsAdvance(s, t, k)
    ensures BankBooksMatch(t)
  {
    SettlementTotalsAfterUpdate(s.settlements, k, t.settlements[k]);
  }

  lemma BankCompletionKeepsBooks(s: State, a: Action)
    requires AllCoherent(s) && BankBooksMatch(s) && a.DoCompleteBank?
    ensures BankBooksMatch(After(s, a))
  {
    var t, k := After(s, a), a.settlement;
    BankShape(s, a);
    if IsAdvance(s, t, k) {
      AdvanceKeepsBooks(s, t, k);
    } else if t != s {
      assert Coherent(s.settlements[k]);
      CompletionKeepsBooks(s, t, k, BankDebit(s, k, a.suffix));
    }
  }

  /** The debit and the COMPLETED settlement enter the two totals together. */
  lemma CompletionKeepsBooks(s: State, t: State, k: nat, e: Entry)
    requires BankBooksMatch(s) && IsCompletion(s, t, k, [e]) && IsBankDebit(e)
    requires s.settlements[k].destination.ToBank?
    requires e.bucket == s.settlements[k].bucket && e.amountKobo == s.settlements[k].amountKobo
    ensures BankBooksMatch(t)
  {
    var st := Complete(s.settlements[k]);
    TotalAppend(BankDebits, s.entries, e);
    SettlementTotalUpdate(CompletedToBank, s.settlements, k, st);
    forall business
      ensures Total(BankDebitsOf(business), t.entries) == SettlementTotal(CompletedToBankOf(business), t.settlements)
    {
      assert Total(BankDebitsOf(business), s.entries) == SettlementTotal(CompletedToBankOf(business), s.settlements);
      TotalAppend(BankDebitsOf(business), s.entries, e);
      SettlementTotalUpdate(CompletedToBankOf(business), s.settlements, k, st);
    }
  }

  lemma InternalSettlementKeepsBooks(s: State, a: Action)
    requires AllCoherent(s) && BankBooksMatch(s) && a.DoSettleInternal?
    ensures BankBooksMatch(After(s, a))
  {
    var t, k := After(s, a), a.settlement;
    InternalShape(s, a);
    if IsAdvance(s, t, k) {
      AdvanceKeepsBooks(s, t, k);
    } else if t != s {
      var pair := InternalEntries(s, k, InternalDest(s.settlements[k]), a.uuid);
      BankTotalsAfterPair(s.entries, pair[0], pair[1]);
      SettlementTotalsAfterUpdate(s.settlements, k, Complete(s.settlements[k]));
    }
  }

  lemma PendingCountsNothing(settlements: seq<Settlement>, st: Settlement)
    requires st.status == PENDING
    ensures SettlementTotal(CompletedToBank, settlements + [st]) == SettlementTotal(CompletedToBank, settlements)
    ensures forall business ::
      SettlementTotal(CompletedToBankOf(business), settlements + [st])
      == SettlementTotal(CompletedToBankOf(business), settlements)
  {
    SettlementTotalAppend(CompletedToBank, settlements, st);
    forall business
      ensures SettlementTotal(CompletedToBankOf(business), settlements + [st])
           == SettlementTotal(CompletedToBankOf(business), settlements)
    {
      SettlementTotalAppend(CompletedToBankOf(business), settlements, st);
    }
  }

  lemma SameBooks(s: State, t: State)
    requires BankBooksMatch(s) && t.entries == s.entries
    requires SettlementTotal(CompletedToBank, t.settlements) == SettlementTotal(CompletedToBank, s.settlements)
    requires forall business ::
      SettlementTotal(CompletedToBankOf(business), t.settlements)
      == SettlementTotal(CompletedToBankOf(business), s.settlements)
    ensures BankBooksMatch(t)
  {
    forall business
      ensures Total(BankDebitsOf(business), t.entries) == SettlementTotal(CompletedToBankOf(business), t.settlements)
    {
      assert Total(BankDebitsOf(business), s.entries) == SettlementTotal(CompletedToBankOf(business), s.settlements);
    }
  }

  lemma ReserveKeepsBooks(s: State, a: Action)
    requires BankBooksMatch(s) && a.DoReserve?
    ensures BankBooksMatch(After(s, a))
  {
    if Step(s, a).Committed? {
      var st := Settlement(a.id, a.bucket, a.amount, PENDING, a.destination, Reserved, false);
      assert After(s, a) == s.(settlements := s.settlements + [st]);
      PendingCountsNothing(s.settlements, st);
      SameBooks(s, After(s, a));
    }
  }

  lemma CreditKeepsBooks(s: State, a: Action)
    requires BankBooksMatch(s) && a.DoCredit?
    ensures BankBooksMatch(After(s, a))
  {
    BankTotalsAfterAppend(s.entries, CreditEntry(s, a.bucket, a.amount, a.reference, a.source));
  }

  lemma TransferKeepsBooks(s: State, a: Action)
    requires BankBooksMatch(s) && a.DoTransfer?
    ensures BankBooksMatch(After(s, a))
  {
    var pair := TransferEntries(s, BucketId(a.business, a.sourceRef), BucketId(a.business, a.destRef), a.amount, a.uuid);
    BankTotalsAfterPair(s.entries, pair[0], pair[1]);
  }

  lemma MovesOnKeepsBooks(s: State, a: Action)
    requires AllCoherent(s) && BankBooksMatch(s) && MovesOn(a)
    ensures BankBooksMatch(After(s, a))
  {
    MovesOnShape(s, a);
    if After(s, a) != s { AdvanceKeepsBooks(s, After(s, a), a.settlement); }
  }

  lemma StepKeepsBooks(s: State, a: Action)
    requires AllCoherent(s) && BankBooksMatch(s)
    ensures BankBooksMatch(After(s, a))
  {
    match a
    case DoProvision(_) =>
    case DoClosing(_) =>
    case DoCredit(_, _, _, _) => CreditKeepsBooks(s, a);
    case DoTransfer(_, _, _, _, _) => TransferKeepsBooks(s, a);
    case DoReserve(_, _, _, _, _) => ReserveKeepsBooks(s, a);
    case DoCompleteBank(_, _, _) => BankCompletionKeepsBooks(s, a);
    case DoSettleInternal(_, _, _) => InternalSettlementKeepsBooks(s, a);
    case _ => MovesOnKeepsBooks(s, a);
  }

  lemma {:induction false} RunKeepsBooks(s: State, actions: seq<Action>)
    requires AllCoherent(s) && BankBooksMatch(s)
    ensures AllCoherent(Run(s, actions)) && BankBooksMatch(Run(s, actions))
    decreases |actions|
  {
    if actions == [] {
    } else {
      StepKeepsCoherent(s, actions[0]);
      StepKeepsBooks(s, actions[0]);
      RunKeepsBooks(After(s, actions[0]), actions[1..]);
    }
  }

  ghost predicate AcceptedAllCompleted(settlements: seq<Settlement>) {
    forall k :: 0 <= k < |settlements| && settlements[k].nombaAccepted ==> settlements[k].status == COMPLETED
  }

  lemma {:induction false} CompletedAgainstAccepted(settlements: seq<Settlement>)
    requires forall k :: 0 <= k < |settlements| ==> Coherent(settlements[k])
    ensures SettlementTotal(CompletedToBank, settlements) <= SettlementTotal(AcceptedTransfers, settlements)
    ensures SettlementTotal(CompletedToBank, settlements) == SettlementTotal(AcceptedTransfers, settlements)
            <==> AcceptedAllCompleted(settlements)
    decreases |settlements|
  {
    if settlements == [] {
    } else {
      var n := |settlements| - 1;
      CompletedAgainstAccepted(settlements[..n]);
      assert Coherent(settlements[n]);
      assert AcceptedAllCompleted(settlements) <==>
        AcceptedAllCompleted(settlements[..n]) && (settlements[n].nombaAccepted ==> settlements[n].status == COMPLETED);
    }
  }

  /** In every run the bank debits never exceed the transfers Nomba accepted, and they are equal exactly
      when the completing transaction of every accepted transfer committed. */
  lemma BankDebitsAgainstAccepted(actions: seq<Action>)
    ensures var t := Run(INITIAL, actions);
      && Total(BankDebits, t.entries) <= SettlementTotal(AcceptedTransfers, t.settlements)
      && (Total(BankDebits, t.entries) == SettlementTotal(AcceptedTransfers, t.settlements)
          <==> AcceptedAllCompleted(t.settlements))
  {
    RunKeepsBooks(INITIAL, actions);
    CompletedAgainstAccepted(Run(INITIAL, actions).settlements);
  }
}
