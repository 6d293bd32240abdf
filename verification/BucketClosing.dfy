/** Closing leaves only empty buckets: exactly which steps break that, and exactly when a closing request does. */
module BucketClosing {
  import opened Wrappers
  import opened AccountStatuses
  import opened BucketLedger
  import opened Treasury
  import opened SettlementProtocol

  predicate IsClosed(s: State, b: BucketId) {
    b in s.buckets && s.buckets[b] == CLOSED
  }

  predicate IsEmpty(s: State, b: BucketId) {
    Balance(s, b) == 0 && ReservedOn(s, b) == 0
  }

  /** Every CLOSED bucket has balance 0 and nothing reserved. */
  ghost predicate ClosedEmpty(s: State) {
    forall b :: IsClosed(s, b) ==> IsEmpty(s, b)
  }

  /** The step credits b: a new allocation of a positive amount, or an internal settlement that completes into b. */
  predicate Feeds(s: State, a: Action, b: BucketId) {
    match a
    case DoCredit(bucket, amount, reference, _) =>
      bucket == b && b in s.buckets && amount > 0 && !HasReference(s.entries, reference)
    case DoSettleInternal(k, _, _) =>
      && k < |s.settlements| && After(s, a).entries != s.entries
      && InternalDest(s.settlements[k]) == b && s.settlements[k].bucket != b
    case _ => false
  }

  /** The step leaves money or a reservation on a CLOSED bucket: it closes a bucket that is not empty now, credits a
      closed one, or reserves on a closed one. Decidable before the step. */
  predicate Strands(s: State, a: Action) {
    match a
    case DoClosing(WriteClosed(c)) => Step(s, a).Committed? && !IsEmpty(s, s.closings[c].bucket)
    case DoCredit(b, _, _, _) => IsClosed(s, b) && Feeds(s, a, b)
    case DoReserve(b, _, _, _, _) => IsClosed(s, b) && Step(s, a).Committed?
    case DoSettleInternal(k, _, _) =>
      && k < |s.settlements| && IsClosed(s, InternalDest(s.settlements[k]))
      && Feeds(s, a, InternalDest(s.settlements[k]))
    case _ => false
  }

  // ----- One step

  /** A bucket with an unfinished settlement has something reserved. */
  lemma HeldNotEmpty(s: State, k: nat)
    requires AllCoherent(s) && k < |s.settlements| && !SettlementProtocol.Terminal(s.settlements[k])
    ensures ReservedOn(s, s.settlements[k].bucket) >= 1
  {
    assert Coherent(s.settlements[k]);
    ReservedUpdate(s.settlements, k, Complete(s.settlements[k]), s.settlements[k].bucket);
  }

  lemma SameTables(s: State, t: State)
    requires ClosedEmpty(s) && t.entries == s.entries && t.settlements == s.settlements
    requires forall b :: IsClosed(t, b) ==> IsClosed(s, b)
    ensures ClosedEmpty(t)
  {
    forall b | IsClosed(t, b) ensures IsEmpty(t, b) {
      assert IsEmpty(s, b);
    }
  }

  lemma ClosingStep(s: State, a: Action)
    requires ClosedEmpty(s) && a.DoClosing?
    ensures ClosedEmpty(After(s, a)) <==> !Strands(s, a)
  {
    var t := After(s, a);
    if a.step.WriteClosed? && Step(s, a).Committed? {
      var b := s.closings[a.step.closing].bucket;
      assert IsClosed(t, b) && (IsEmpty(t, b) <==> IsEmpty(s, b));
      if IsEmpty(s, b) {
        forall d | IsClosed(t, d) ensures IsEmpty(t, d) {
          if d != b { assert IsClosed(s, d); }
          assert IsEmpty(s, d);
        }
      }
    } else {
      SameTables(s, t);
    }
  }

  lemma CreditStep(s: State, a: Action)
    requires ClosedEmpty(s) && a.DoCredit?
    ensures ClosedEmpty(After(s, a)) <==> !Strands(s, a)
  {
    var t := After(s, a);
    if t != s {
      var e := CreditEntry(s, a.bucket, a.amount, a.reference, a.source);
      forall b ensures Balance(t, b) == Balance(s, b) + (if b == a.bucket then a.amount else 0) {
        BalanceAppend(s.entries, e, b);
      }
      if IsClosed(s, a.bucket) { assert IsClosed(t, a.bucket) && IsEmpty(s, a.bucket); }
      forall b | IsClosed(t, b) ensures IsEmpty(t, b) <==> b != a.bucket || a.amount == 0 {
        assert IsEmpty(s, b);
      }
    }
  }

  /** A transfer looks at both statuses inside its transaction. */
  lemma TransferStep(s: State, a: Action)
    requires ClosedEmpty(s) && a.DoTransfer?
    ensures ClosedEmpty(After(s, a))
  {
    var t := After(s, a);
    if t != s {
      var pair := TransferEntries(s, BucketId(a.business, a.sourceRef), BucketId(a.business, a.destRef), a.amount, a.uuid);
      forall b | IsClosed(t, b) ensures IsEmpty(t, b) {
        assert IsEmpty(s, b);
        PairBalance(s.entries, pair[0], pair[1], b);
      }
    }
  }

  lemma ReserveStep(s: State, a: Action)
    requires ClosedEmpty(s) && a.DoReserve?
    ensures ClosedEmpty(After(s, a)) <==> !Strands(s, a)
  {
    var t := After(s, a);
    if Step(s, a).Committed? {
      var st := Settlement(a.id, a.bucket, a.amount, PENDING, a.destination, Reserved, false);
      forall b ensures ReservedOn(t, b) == ReservedOn(s, b) + (if b == a.bucket then a.amount else 0) {
        ReservedAppend(s.settlements, st, b);
      }
      if IsClosed(s, a.bucket) { assert IsClosed(t, a.bucket) && !IsEmpty(t, a.bucket); }
      forall b | IsClosed(t, b) && b != a.bucket ensures IsEmpty(t, b) {
        assert IsEmpty(s, b);
      }
    }
  }

  /** What a settlement does to its own bucket concerns no closed one. */
  lemma AdvanceStep(s: State, t: State, k: nat)
    requires AllCoherent(s) && ClosedEmpty(s) && IsAdvance(s, t, k) && t.buckets == s.buckets
    ensures ClosedEmpty(t)
  {
    HeldNotEmpty(s, k);
    forall b | IsClosed(t, b) ensures IsEmpty(t, b) {
      assert IsClosed(s, b) && IsEmpty(s, b);
      ReservedUpdate(s.settlements, k, t.settlements[k], b);
    }
  }

  lemma BankStep(s: State, a: Action)
    requires AllCoherent(s) && ClosedEmpty(s) && a.DoCompleteBank?
    ensures ClosedEmpty(After(s, a))
  {
    var t, k := After(s, a), a.settlement;
    BankShape(s, a);
    if IsAdvance(s, t, k) {
      AdvanceStep(s, t, k);
    } else if t != s {
      HeldNotEmpty(s, k);
      forall b | IsClosed(t, b) ensures IsEmpty(t, b) {
        assert IsClosed(s, b) && IsEmpty(s, b);
        BalanceAppend(s.entries, BankDebit(s, k, a.suffix), b);
        ReservedUpdate(s.settlements, k, Complete(s.settlements[k]), b);
      }
    }
  }

  /** The completing rows of an internal settlement: its own bucket is not closed, the destination may be. */
  lemma InternalRows(s: State, a: Action, b: BucketId)
    requires AllCoherent(s) && ClosedEmpty(s) && a.DoSettleInternal? && After(s, a).entries != s.entries
    requires IsClosed(s, b)
    ensures a.settlement < |s.settlements| && Coherent(s.settlements[a.settlement])
    ensures s.settlements[a.settlement].bucket != b
    ensures ReservedOn(After(s, a), b) == 0
    ensures Balance(After(s, a), b)
         == if b == InternalDest(s.settlements[a.settlement]) then s.settlements[a.settlement].amountKobo else 0
  {
    var t, k := After(s, a), a.settlement;
    InternalShape(s, a);
    HeldNotEmpty(s, k);
    assert Coherent(s.settlements[k]) && IsEmpty(s, b);
    var pair := InternalEntries(s, k, InternalDest(s.settlements[k]), a.uuid);
    PairBalance(s.entries, pair[0], pair[1], b);
    ReservedUpdate(s.settlements, k, Complete(s.settlements[k]), b);
  }

  lemma InternalStep(s: State, a: Action)
    requires AllCoherent(s) && ClosedEmpty(s) && a.DoSettleInternal?
    ensures ClosedEmpty(After(s, a)) <==> !Strands(s, a)
  {
    var t, k := After(s, a), a.settlement;
    InternalShape(s, a);
    if t.entries != s.entries {
      var dest := InternalDest(s.settlements[k]);
      if IsClosed(s, dest) {
        InternalRows(s, a, dest);
        assert IsClosed(t, dest) && !IsEmpty(t, dest);
      } else {
        forall b | IsClosed(t, b) ensures IsEmpty(t, b) {
          InternalRows(s, a, b);
        }
      }
    } else if t != s {
      AdvanceStep(s, t, k);
    }
  }

  /** One step keeps closed buckets empty if and only if it strands nothing. */
  lemma StepClosedEmpty(s: State, a: Action)
    requires AllCoherent(s) && ClosedEmpty(s)
    ensures ClosedEmpty(After(s, a)) <==> !Strands(s, a)
  {
    match a
    case DoProvision(_) => SameTables(s, After(s, a));
    case DoClosing(_) => ClosingStep(s, a);
    case DoCredit(_, _, _, _) => CreditStep(s, a);
    case DoTransfer(_, _, _, _, _) => TransferStep(s, a);
    case DoReserve(_, _, _, _, _) => ReserveStep(s, a);
    case DoCompleteBank(_, _, _) => BankStep(s, a);
    case DoSettleInternal(_, _, _) => InternalStep(s, a);
    case _ =>
      MovesOnShape(s, a);
      if After(s, a) != s { AdvanceStep(s, After(s, a), a.settlement); }
  }

  // ----- Whole runs

  ghost predicate AlwaysClosedEmpty(s: State, actions: seq<Action>)
    decreases |actions|
  {
    ClosedEmpty(s) && (actions != [] ==> AlwaysClosedEmpty(After(s, actions[0]), actions[1..]))
  }

  ghost predicate NeverStrands(s: State, actions: seq<Action>)
    decreases |actions|
  {
    actions != [] ==> !Strands(s, actions[0]) && NeverStrands(After(s, actions[0]), actions[1..])
  }

  /** Over whole runs, both ways: closed buckets are empty in every state exactly when no step strands anything. */
  lemma {:induction false} ClosedEmptyOverRuns(s: State, actions: seq<Action>)
    requires AllCoherent(s) && ClosedEmpty(s)
    ensures AlwaysClosedEmpty(s, actions) <==> NeverStrands(s, actions)
    decreases |actions|
  {
    if actions == [] {
    } else {
      var t := After(s, actions[0]);
      StepClosedEmpty(s, actions[0]);
      StepKeepsCoherent(s, actions[0]);
      if ClosedEmpty(t) {
        ClosedEmptyOverRuns(t, actions[1..]);
      }
    }
  }

  /** Whoever holds what: the balance of a closed bucket grows exactly by an allocation or by an internal settlement
      that completes into it. Transfers check the status; these two do not. */
  lemma ClosedBucketCreditedExactlyWhen(s: State, a: Action, b: BucketId)
    requires AllCoherent(s) && IsClosed(s, b)
    ensures Balance(After(s, a), b) > Balance(s, b) <==> Feeds(s, a, b)
  {
    match a
    case DoCredit(_, _, _, _) => BalanceAppend(s.entries, CreditEntry(s, a.bucket, a.amount, a.reference, a.source), b);
    case DoTransfer(_, _, _, _, _) =>
      var pair := TransferEntries(s, BucketId(a.business, a.sourceRef), BucketId(a.business, a.destRef), a.amount, a.uuid);
      PairBalance(s.entries, pair[0], pair[1], b);
    case DoCompleteBank(k, suffix, _) =>
      BankShape(s, a);
      if k < |s.settlements| { BalanceAppend(s.entries, BankDebit(s, k, suffix), b); }
    case DoSettleInternal(k, uuid, _) =>
      InternalShape(s, a);
      if k < |s.settlements| {
        assert Coherent(s.settlements[k]);
        var pair := InternalEntries(s, k, InternalDest(s.settlements[k]), uuid);
        PairBalance(s.entries, pair[0], pair[1], b);
      }
    case _ =>
  }

  // ----- What a closing request had read

  /** The state before action n of a run. */
  function At(actions: seq<Action>, n: nat): State
    requires n <= |actions|
  {
    Run(INITIAL, actions[..n])
  }

  lemma AtStep(actions: seq<Action>, n: nat)
    requires n < |actions|
    ensures At(actions, n + 1) == After(At(actions, n), actions[n])
  {
    RunSnoc(INITIAL, actions[..n], actions[n]);
    assert actions[..n] + [actions[n]] == actions[..n + 1];
  }

  /** Request c stands at this point and concerns bucket b. */
  predicate Stands(s: State, c: nat, b: BucketId, progress: ClosingProgress) {
    c < |s.closings| && s.closings[c] == Closing(b, progress)
  }

  ghost predicate BalanceReadAt(actions: seq<Action>, p: nat, c: nat, b: BucketId) {
    && p < |actions| && actions[p] == DoClosing(ReadBalance(c))
    && Stands(At(actions, p), c, b, StatusRead) && Balance(At(actions, p), b) == 0
  }

  ghost predicate ReservedReadAt(actions: seq<Action>, q: nat, c: nat, b: BucketId) {
    && q < |actions| && actions[q] == DoClosing(ReadReserved(c))
    && Stands(At(actions, q), c, b, BalanceRead(0)) && ReservedOn(At(actions, q), b) == 0
  }

  lemma MovedBy(s: State, a: Action, c: nat, b: BucketId, progress: ClosingProgress)
    requires Stands(After(s, a), c, b, progress) && !Stands(s, c, b, progress)
    ensures progress.BalanceRead? ==>
      a == DoClosing(ReadBalance(c)) && Stands(s, c, b, StatusRead) && progress.balance == Balance(s, b)
    ensures progress.FoundEmpty? ==>
      a == DoClosing(ReadReserved(c)) && Stands(s, c, b, BalanceRead(0)) && ReservedOn(s, b) == 0
  {
  }

  lemma {:induction false} BalanceReadBefore(actions: seq<Action>, n: nat, c: nat, b: BucketId) returns (p: nat)
    requires n <= |actions| && Stands(At(actions, n), c, b, BalanceRead(0))
    ensures p < n && BalanceReadAt(actions, p, c, b)
    decreases n
  {
    var m := n - 1;
    AtStep(actions, m);
    if Stands(At(actions, m), c, b, BalanceRead(0)) {
      p := BalanceReadBefore(actions, m, c, b);
    } else {
      MovedBy(At(actions, m), actions[m], c, b, BalanceRead(0));
      p := m;
    }
  }

  lemma {:induction false} ReservedReadBefore(actions: seq<Action>, n: nat, c: nat, b: BucketId) returns (q: nat)
    requires n <= |actions| && Stands(At(actions, n), c, b, FoundEmpty)
    ensures q < n && ReservedReadAt(actions, q, c, b)
    decreases n
  {
    var m := n - 1;
    AtStep(actions, m);
    if Stands(At(actions, m), c, b, FoundEmpty) {
      q := ReservedReadBefore(actions, m, c, b);
    } else {
      MovedBy(At(actions, m), actions[m], c, b, FoundEmpty);
      q := m;
    }
  }

  /** The request read balance 0 at p and reservations 0 at q, and one of the two is something else at n. */
  ghost predicate Overtaken(actions: seq<Action>, c: nat, b: BucketId, p: nat, q: nat, n: nat) {
    && p < q < n <= |actions| && BalanceReadAt(actions, p, c, b) && ReservedReadAt(actions, q, c, b)
    && (Balance(At(actions, n), b) != Balance(At(actions, p), b)
        || ReservedOn(At(actions, n), b) != ReservedOn(At(actions, q), b))
  }

  /** In every run a closing request that writes closes a bucket that is not empty if and only if the balance has
      changed since it read the balance, or the reservations since it read those. */
  lemma ClosingStrandsExactlyWhen(actions: seq<Action>, n: nat, c: nat, b: BucketId)
    requires n < |actions| && actions[n] == DoClosing(WriteClosed(c)) && Stands(At(actions, n), c, b, FoundEmpty)
    ensures !IsEmpty(At(actions, n), b) <==> exists p: nat, q: nat :: Overtaken(actions, c, b, p, q, n)
  {
    var q := ReservedReadBefore(actions, n, c, b);
    var p := BalanceReadBefore(actions, q, c, b);
    if !IsEmpty(At(actions, n), b) {
      assert Overtaken(actions, c, b, p, q, n);
    }
  }

  /** The reads of a closing request on an empty bucket. */
  lemma EmptyReads(s: State, b: BucketId)
    requires b in s.buckets && s.buckets[b] != CLOSED && IsEmpty(s, b) && s.closings == []
    ensures var asked := After(s, DoClosing(Ask(b)));
      After(After(asked, DoClosing(ReadBalance(0))), DoClosing(ReadReserved(0)))
      == s.(closings := [Closing(b, FoundEmpty)])
  {
    var asked := After(s, DoClosing(Ask(b)));
    assert asked == s.(closings := [Closing(b, StatusRead)]);
    assert After(asked, DoClosing(ReadBalance(0))) == s.(closings := [Closing(b, BalanceRead(0))]);
  }

  // ----- Two runs that leave money in a closed bucket

  const PAYROLL := BucketId("acme", "payroll")
  const TAX := BucketId("acme", "tax")

  /** Between the reads of a closing request and its update another request credits the bucket. */
  const CREDITED_WHILE_CLOSING: seq<Action> := [
    DoProvision(TAX), DoClosing(Ask(TAX)), DoClosing(ReadBalance(0)), DoClosing(ReadReserved(0)),
    DoCredit(TAX, 100, "a", "tx"), DoClosing(WriteClosed(0))]

  lemma CreditedBalance(buckets: map<BucketId, AccountStatus>, closings: seq<Closing>)
    ensures Balance(State(buckets, [Entry(TAX, CREDIT, 100, 100, "a", Allocation("tx"))], [], closings), TAX) == 100
  {
    var e := Entry(TAX, CREDIT, 100, 100, "a", Allocation("tx"));
    BalanceAppend([], e, TAX);
    assert [] + [e] == [e];
  }

  lemma FoundEmptyFirst()
    ensures At(CREDITED_WHILE_CLOSING, 4) == State(map[TAX := ACTIVE], [], [], [Closing(TAX, FoundEmpty)])
  {
    var run := CREDITED_WHILE_CLOSING;
    AtStep(run, 0);
    var s := At(run, 1);
    assert s == State(map[TAX := ACTIVE], [], [], []);
    AtStep(run, 1);
    AtStep(run, 2);
    AtStep(run, 3);
    EmptyReads(s, TAX);
  }

  /** The request found an ACTIVE, empty bucket; what it closes holds 100 kobo. */
  lemma ClosingCanStrandMoney()
    ensures var t := At(CREDITED_WHILE_CLOSING, 6); IsClosed(t, TAX) && Balance(t, TAX) == 100
  {
    var run := CREDITED_WHILE_CLOSING;
    FoundEmptyFirst();
    AtStep(run, 4);
    assert At(run, 5).entries == [Entry(TAX, CREDIT, 100, 100, "a", Allocation("tx"))];
    AtStep(run, 5);
    CreditedBalance(At(run, 6).buckets, At(run, 6).closings);
  }

  /** Without any race: an empty bucket is closed, then a settlement from another bucket completes into it. */
  const SETTLED_INTO_CLOSED: seq<Action> := [
    DoProvision(PAYROLL), DoProvision(TAX), DoCredit(PAYROLL, 100, "a", "tx"),
    DoClosing(Ask(TAX)), DoClosing(ReadBalance(0)), DoClosing(ReadReserved(0)), DoClosing(WriteClosed(0)),
    DoReserve(PAYROLL, "s", 100, ToBucket(Some("tax")), ACTIVE), DoMarkProcessing(0), DoSettleInternal(0, "u", false)]

  const PAID_IN := Entry(PAYROLL, CREDIT, 100, 100, "a", Allocation("tx"))

  lemma BothProvisioned()
    ensures At(SETTLED_INTO_CLOSED, 2) == State(map[PAYROLL := ACTIVE, TAX := ACTIVE], [], [], [])
  {
    var run := SETTLED_INTO_CLOSED;
    AtStep(run, 0);
    assert At(run, 1) == State(map[PAYROLL := ACTIVE], [], [], []);
    AtStep(run, 1);
  }

  lemma PayrollFunded()
    ensures At(SETTLED_INTO_CLOSED, 3) == State(map[PAYROLL := ACTIVE, TAX := ACTIVE], [PAID_IN], [], [])
    ensures ComputeBalance([PAID_IN], TAX) == 0
  {
    BothProvisioned();
    AtStep(SETTLED_INTO_CLOSED, 2);
    BalanceAppend([], PAID_IN, TAX);
    assert [] + [PAID_IN] == [PAID_IN];
  }

  lemma TaxFoundEmpty()
    ensures At(SETTLED_INTO_CLOSED, 6)
         == State(map[PAYROLL := ACTIVE, TAX := ACTIVE], [PAID_IN], [], [Closing(TAX, FoundEmpty)])
  {
    var run := SETTLED_INTO_CLOSED;
    PayrollFunded();
    var s := At(run, 3);
    AtStep(run, 3);
    AtStep(run, 4);
    AtStep(run, 5);
    EmptyReads(s, TAX);
  }

  lemma TaxClosesEmpty()
    ensures At(SETTLED_INTO_CLOSED, 7)
         == State(map[PAYROLL := ACTIVE, TAX := CLOSED], [PAID_IN], [], [Closing(TAX, Over)])
    ensures ComputeBalance([PAID_IN], TAX) == 0
  {
    PayrollFunded();
    TaxFoundEmpty();
    AtStep(SETTLED_INTO_CLOSED, 6);
  }

  lemma SettlementProcesses()
    ensures var t := At(SETTLED_INTO_CLOSED, 9);
      && t.buckets == map[PAYROLL := ACTIVE, TAX := CLOSED] && t.entries == [PAID_IN]
      && t.settlements == [Settlement("s", PAYROLL, 100, PROCESSING, ToBucket(Some("tax")), Processing, false)]
  {
    var run := SETTLED_INTO_CLOSED;
    TaxClosesEmpty();
    assert LatestBalance([PAID_IN], PAYROLL) == 100;
    AtStep(run, 7);
    assert At(run, 8).settlements == [Settlement("s", PAYROLL, 100, PENDING, ToBucket(Some("tax")), Reserved, false)];
    AtStep(run, 8);
  }

  /** settleInternal never looks at the destination's status: the closed bucket ends with 100 kobo. */
  lemma SettlementStrandsMoney()
    ensures ClosedEmpty(At(SETTLED_INTO_CLOSED, 7)) && IsClosed(At(SETTLED_INTO_CLOSED, 7), TAX)
    ensures var t := At(SETTLED_INTO_CLOSED, 10); IsClosed(t, TAX) && Balance(t, TAX) == 100
  {
    var run := SETTLED_INTO_CLOSED;
    TaxClosesEmpty();
    SettlementProcesses();
    var s := At(run, 9);
    AtStep(run, 9);
    var pair := InternalEntries(s, 0, TAX, "u");
    NoSuchReference("stl_int_" + "u" + "_out");
    NoSuchReference("stl_int_" + "u" + "_in");
    assert At(run, 10).entries == s.entries + ([pair[0]] + [pair[1]]);
    PairBalance(s.entries, pair[0], pair[1], TAX);
  }

  lemma NoSuchReference(reference: string)
    requires |reference| > 1
    ensures !HasReference([PAID_IN], reference)
  {
  }
}
