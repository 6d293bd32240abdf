/** Reservations against balances: exactly which runs keep every bucket solvent. */
module Solvency {
  import opened AccountStatuses
  import opened BucketLedger
  import opened Treasury
  import opened CacheRefinement
  import opened SettlementProtocol

  /** Every bucket covers what is reserved on it; so no balance is negative. */
  ghost predicate Solvent(s: State) {
    forall b :: ReservedOn(s, b) <= Balance(s, b)
  }

  /** The step commits although the amount exceeds balance - reserved of the bucket it draws on.
      Decidable from the state before the step; the code's own guards are weaker. */
  predicate Overdraws(s: State, a: Action) {
    && Step(s, a).Committed?
    && match a
       case DoTransfer(business, src, _, amount, _) =>
         amount > Balance(s, BucketId(business, src)) - ReservedOn(s, BucketId(business, src))
       case DoReserve(b, _, amount, _, _) => amount > Balance(s, b) - ReservedOn(s, b)
       case _ => false
  }

  lemma TransferSolvency(s: State, a: Action)
    requires Solvent(s) && a.DoTransfer?
    ensures Solvent(After(s, a)) <==> !Overdraws(s, a)
  {
    var t := After(s, a);
    if t != s {
      var source := BucketId(a.business, a.sourceRef);
      var pair := TransferEntries(s, source, BucketId(a.business, a.destRef), a.amount, a.uuid);
      forall b
        ensures Balance(t, b) == Balance(s, b) + (if pair[0].bucket == b then Signed(pair[0]) else 0)
                                               + (if pair[1].bucket == b then Signed(pair[1]) else 0)
      {
        PairBalance(s.entries, pair[0], pair[1], b);
      }
      assert ReservedOn(t, source) == ReservedOn(s, source);
    } else {
      TransferChangesState(s, a);
    }
  }

  lemma TransferChangesState(s: State, a: Action)
    requires a.DoTransfer?
    ensures Step(s, a).Committed? ==> After(s, a).entries != s.entries
  {
  }

  lemma ReserveSolvency(s: State, a: Action)
    requires Solvent(s) && a.DoReserve?
    ensures Solvent(After(s, a)) <==> !Overdraws(s, a)
  {
    var t := After(s, a);
    if Step(s, a).Committed? {
      var st := t.settlements[|s.settlements|];
      forall b
        ensures ReservedOn(t, b) == ReservedOn(s, b) + (if b == a.bucket then a.amount else 0)
      {
        ReservedAppend(s.settlements, st, b);
      }
      assert Balance(t, a.bucket) == Balance(s, a.bucket);
    }
  }

  lemma CreditSolvent(s: State, a: Action)
    requires Solvent(s) && a.DoCredit?
    ensures Solvent(After(s, a))
  {
    var t := After(s, a);
    forall b ensures ReservedOn(t, b) <= Balance(t, b) {
      assert ReservedOn(s, b) <= Balance(s, b);
      BalanceAppend(s.entries, CreditEntry(s, a.bucket, a.amount, a.reference, a.source), b);
    }
  }

  lemma AdvanceSolvent(s: State, t: State, k: nat)
    requires Solvent(s) && IsAdvance(s, t, k)
    ensures Solvent(t)
  {
    forall b ensures ReservedOn(t, b) <= Balance(t, b) {
      assert ReservedOn(s, b) <= Balance(s, b);
      ReservedUpdate(s.settlements, k, t.settlements[k], b);
    }
  }

  /** The completing debit consumes the settlement's own reservation. */
  lemma BankCompletionSolvent(s: State, a: Action)
    requires AllCoherent(s) && Solvent(s) && a.DoCompleteBank?
    ensures Solvent(After(s, a))
  {
    var t, k := After(s, a), a.settlement;
    BankShape(s, a);
    if IsAdvance(s, t, k) {
      AdvanceSolvent(s, t, k);
    } else if t != s {
      forall b ensures ReservedOn(t, b) <= Balance(t, b) {
        assert ReservedOn(s, b) <= Balance(s, b);
        BalanceAppend(s.entries, BankDebit(s, k, a.suffix), b);
        ReservedUpdate(s.settlements, k, Complete(s.settlements[k]), b);
      }
    }
  }

  lemma InternalSettlementSolvent(s: State, a: Action)
    requires AllCoherent(s) && Solvent(s) && a.DoSettleInternal?
    ensures Solvent(After(s, a))
  {
    var t, k := After(s, a), a.settlement;
    InternalShape(s, a);
    if IsAdvance(s, t, k) {
      AdvanceSolvent(s, t, k);
    } else if t != s {
      var pair := InternalEntries(s, k, InternalDest(s.settlements[k]), a.uuid);
      forall b ensures ReservedOn(t, b) <= Balance(t, b) {
        assert ReservedOn(s, b) <= Balance(s, b);
        PairBalance(s.entries, pair[0], pair[1], b);
        ReservedUpdate(s.settlements, k, Complete(s.settlements[k]), b);
      }
    }
  }

  /** One step from a solvent state stays solvent if and only if it does not overdraw. */
  lemma StepSolvency(s: State, a: Action)
    requires AllCoherent(s) && Solvent(s)
    ensures Solvent(After(s, a)) <==> !Overdraws(s, a)
  {
    match a
    case DoProvision(b) => QuietSolvent(s, After(s, a));
    case DoClosing(_) => QuietSolvent(s, After(s, a));
    case DoCredit(_, _, _, _) => CreditSolvent(s, a);
    case DoTransfer(_, _, _, _, _) => TransferSolvency(s, a);
    case DoReserve(_, _, _, _, _) => ReserveSolvency(s, a);
    case DoCompleteBank(_, _, _) => BankCompletionSolvent(s, a);
    case DoSettleInternal(_, _, _) => InternalSettlementSolvent(s, a);
    case _ =>
      MovesOnShape(s, a);
      if After(s, a) != s { AdvanceSolvent(s, After(s, a), a.settlement); }
  }

  lemma QuietSolvent(s: State, t: State)
    requires Solvent(s) && t.entries == s.entries && t.settlements == s.settlements
    ensures Solvent(t)
  {
    forall b ensures ReservedOn(t, b) <= Balance(t, b) {
      assert ReservedOn(s, b) <= Balance(s, b);
    }
  }

  ghost predicate AlwaysSolvent(s: State, actions: seq<Action>)
    decreases |actions|
  {
    Solvent(s) && (actions != [] ==> AlwaysSolvent(After(s, actions[0]), actions[1..]))
  }

  ghost predicate NeverOverdraws(s: State, actions: seq<Action>)
    decreases |actions|
  {
    actions != [] ==> !Overdraws(s, actions[0]) && NeverOverdraws(After(s, actions[0]), actions[1..])
  }

  /** Solvency over whole runs, both ways: every state of a run is solvent exactly when no step overdraws. */
  lemma {:induction false} SolvencyOverRuns(s: State, actions: seq<Action>)
    requires AllCoherent(s) && Solvent(s)
    ensures AlwaysSolvent(s, actions) <==> NeverOverdraws(s, actions)
    decreases |actions|
  {
    if actions == [] {
    } else {
      var t := After(s, actions[0]);
      StepSolvency(s, actions[0]);
      StepKeepsCoherent(s, actions[0]);
      if Solvent(t) {
        SolvencyOverRuns(t, actions[1..]);
      }
    }
  }

  lemma InitiallySolvent()
    ensures AllCoherent(INITIAL) && Solvent(INITIAL) && DriftFree(INITIAL) && CacheLaw(INITIAL.entries)
  {
  }

  // ----- What a caller has to observe

  /** Every transfer of the run fits what is available when it runs. */
  ghost predicate TransfersFit(s: State, actions: seq<Action>)
    decreases |actions|
  {
    actions != [] ==>
      && (actions[0].DoTransfer? ==> !Overdraws(s, actions[0]))
      && TransfersFit(After(s, actions[0]), actions[1..])
  }

  /** The reservation guard reads the cache; with an exact cache it never overdraws. */
  lemma ReserveFitsWithoutDrift(s: State, a: Action)
    requires CacheLaw(s.entries) && DriftFree(s) && a.DoReserve?
    ensures !Overdraws(s, a)
  {
    assert LatestBalance(s.entries, a.bucket) == Balance(s, a.bucket);
  }

  lemma {:induction false} FittingRunNeverOverdraws(s: State, actions: seq<Action>)
    requires CacheLaw(s.entries) && DriftFree(s) && NoSelfSettlement(actions) && TransfersFit(s, actions)
    ensures NeverOverdraws(s, actions)
    decreases |actions|
  {
    if actions == [] {
    } else {
      var a := actions[0];
      if a.DoReserve? { ReserveFitsWithoutDrift(s, a); }
      StepKeepsLaw(s, a);
      StepKeepsDriftFree(s, a);
      FittingRunNeverOverdraws(After(s, a), actions[1..]);
    }
  }

  /** Any interleaving of credits and settlements, with crashes, failures and aborted transactions, keeps
      0 <= reserved <= balance on every bucket, as long as no settlement pays its own bucket and every
      transfer fits the available balance. */
  lemma SolventWhenTransfersFit(actions: seq<Action>)
    requires NoSelfSettlement(actions) && TransfersFit(INITIAL, actions)
    ensures AlwaysSolvent(INITIAL, actions)
  {
    InitiallySolvent();
    FittingRunNeverOverdraws(INITIAL, actions);
    SolvencyOverRuns(INITIAL, actions);
  }

  lemma {:induction false} WithoutTransfersFits(s: State, actions: seq<Action>)
    requires forall i :: 0 <= i < |actions| ==> !actions[i].DoTransfer?
    ensures TransfersFit(s, actions)
    decreases |actions|
  {
    if actions == [] {
    } else {
      WithoutTransfersFits(After(s, actions[0]), actions[1..]);
    }
  }

  /** Without transfers there is nothing for the caller to observe beyond distinct buckets. */
  lemma SolventWithoutTransfers(actions: seq<Action>)
    requires NoSelfSettlement(actions)
    requires forall i :: 0 <= i < |actions| ==> !actions[i].DoTransfer?
    ensures AlwaysSolvent(INITIAL, actions)
  {
    WithoutTransfersFits(INITIAL, actions);
    SolventWhenTransfersFit(actions);
  }

  // ----- The transfer guard is too weak

  const PAYROLL := BucketId("acme", "payroll")
  const TAX := BucketId("acme", "tax")

  /** Reserve all of a bucket, transfer the same money away, then complete the settlement. */
  const OVERDRAWING_RUN: seq<Action> := [
    DoProvision(PAYROLL), DoProvision(TAX),
    DoCredit(PAYROLL, 100, "a", "tx"),
    DoReserve(PAYROLL, "s", 100, ToBank(true), ACTIVE),
    DoTransfer("acme", "payroll", "tax", 100, "u"),
    DoMarkProcessing(0), DoCallNomba(0, true), DoCompleteBank(0, "z", false)]

  lemma OverdrawingRunReserves() returns (s: State)
    ensures s == Run(INITIAL, OVERDRAWING_RUN[..4])
    ensures s.buckets == map[PAYROLL := ACTIVE, TAX := ACTIVE]
    ensures s.entries == [Entry(PAYROLL, CREDIT, 100, 100, "a", Allocation("tx"))]
    ensures s.settlements == [Settlement("s", PAYROLL, 100, PENDING, ToBank(true), Reserved, false)]
  {
    var run := OVERDRAWING_RUN;
    RunSnoc(INITIAL, [], run[0]);
    assert [] + [run[0]] == run[..1];
    RunSnoc(INITIAL, run[..1], run[1]);
    assert run[..1] + [run[1]] == run[..2];
    RunSnoc(INITIAL, run[..2], run[2]);
    assert run[..2] + [run[2]] == run[..3];
    var s3 := Run(INITIAL, run[..3]);
    assert s3.entries == [Entry(PAYROLL, CREDIT, 100, 100, "a", Allocation("tx"))];
    assert LatestBalance(s3.entries, PAYROLL) == 100;
    RunSnoc(INITIAL, run[..3], run[3]);
    assert run[..3] + [run[3]] == run[..4];
    s := Run(INITIAL, run[..4]);
  }

  lemma OverdrawingRunTransfers() returns (t: State)
    ensures t == Run(INITIAL, OVERDRAWING_RUN[..5])
    ensures Balance(t, PAYROLL) == 0
    ensures forall i :: 0 <= i < |t.entries| ==> |t.entries[i].reference| > 0 && t.entries[i].reference[0] != 's'
    ensures t.settlements == [Settlement("s", PAYROLL, 100, PENDING, ToBank(true), Reserved, false)]
  {
    var s := OverdrawingRunReserves();
    var run := OVERDRAWING_RUN;
    RunSnoc(INITIAL, run[..4], run[4]);
    assert run[..4] + [run[4]] == run[..5];
    t := Run(INITIAL, run[..5]);
    var pair := TransferEntries(s, PAYROLL, TAX, 100, "u");
    BalanceAppend([], s.entries[0], PAYROLL);
    assert [] + [s.entries[0]] == s.entries;
    assert t.entries == s.entries + ([pair[0]] + [pair[1]]);
    PairBalance(s.entries, pair[0], pair[1], PAYROLL);
  }

  lemma NoBankReferenceYet(t: State, suffix: string)
    requires forall i :: 0 <= i < |t.entries| ==> |t.entries[i].reference| > 0 && t.entries[i].reference[0] != 's'
    ensures forall st :: !HasReference(t.entries, BankReference(st, suffix))
  {
    forall st: Settlement ensures !HasReference(t.entries, BankReference(st, suffix)) {
      assert BankReference(st, suffix)[0] == 's';
    }
  }

  /** Reserved money can be transferred away, because the transfer looks only at the ledger balance:
      the settlement then drives the bucket 100 kobo below zero. */
  lemma TransferCanOverdraw()
    ensures NoSelfSettlement(OVERDRAWING_RUN)
    ensures Balance(Run(INITIAL, OVERDRAWING_RUN), PAYROLL) == -100
    ensures |Run(INITIAL, OVERDRAWING_RUN).settlements| == 1
    ensures Run(INITIAL, OVERDRAWING_RUN).settlements[0].status == COMPLETED
  {
    var run := OVERDRAWING_RUN;
    var t := OverdrawingRunTransfers();
    var t1 := After(t, run[5]);
    var t2 := After(t1, run[6]);
    assert t2.entries == t.entries && InPhase(t2, 0, Accepted);
    NoBankReferenceYet(t, "z");
    BalanceAppend(t2.entries, BankDebit(t2, 0, "z"), PAYROLL);
    RunSnoc(INITIAL, run[..5], run[5]);
    assert run[..5] + [run[5]] == run[..6];
    RunSnoc(INITIAL, run[..6], run[6]);
    assert run[..6] + [run[6]] == run[..7];
    RunSnoc(INITIAL, run[..7], run[7]);
    assert run[..7] + [run[7]] == run;
  }
}
