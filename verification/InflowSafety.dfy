/** What the webhook worker guarantees over every run: one row per transaction, rules evaluated at most
    once, running totals, and the fate of every recorded inflow. */
module InflowSafety {
  import opened AccountStatuses
  import opened RuleEngine
  import opened AccountLedger
  import opened InflowWorker

  // ----- The invariant

  predicate BeforeWrite(pc: Pc) {
    pc.Started? || pc.NotSeen? || pc.Found?
  }

  predicate BeforeEvaluation(pc: Pc) {
    BeforeWrite(pc) || pc.Claimed? || pc.Recorded?
  }

  predicate IsInflow(ev: Evaluation) {
    !IsCustom(ev.payload)
  }

  /** Recorded while the account was SUSPENDED. */
  predicate HeldBack(e: LedgerEntry) {
    e.seen == SUSPENDED
  }

  predicate IsRowOf(e: LedgerEntry, w: nat, p: Payload) {
    e.transactionRef == p.transactionRef && e.writer == w && e.seen == ACTIVE
    && e.account == p.accountNumber && e.amountKobo == p.amountKobo
  }

  /** Run w wrote the row of its transaction, after reading the account as ACTIVE. */
  ghost predicate OwnsRow(s: State, w: nat, p: Payload) {
    exists i :: 0 <= i < |s.ledger| && IsRowOf(s.ledger[i], w, p)
  }

  /** The same, and the row carries this total. */
  ghost predicate OwnsRowWith(s: State, w: nat, p: Payload, cumulative: nat) {
    exists i :: 0 <= i < |s.ledger| && IsRowOf(s.ledger[i], w, p) && s.ledger[i].cumulativeAmountKobo == cumulative
  }

  ghost predicate OwnsEvent(s: State, w: nat, p: Payload) {
    p.eventId in s.processed && s.processed[p.eventId] == w
  }

  /** What a run's position says about the tables. */
  ghost predicate Positioned(s: State, w: nat)
    requires w < |s.workers|
  {
    var p := s.workers[w].payload;
    match s.workers[w].pc
    case Claimed => IsCustom(p) && OwnsEvent(s, w, p)
    case Recorded(cumulative) => !IsCustom(p) && OwnsRowWith(s, w, p, cumulative)
    case Evaluated(_) => !IsCustom(p) && OwnsRow(s, w, p)
    case Reconciled => !IsCustom(p) && OwnsRow(s, w, p)
    case _ => true
  }

  /** An evaluation was made by the owner of its key, with the amounts of the row, and that run has moved on. */
  ghost predicate Justified(s: State, ev: Evaluation) {
    && ev.worker < |s.workers| && s.workers[ev.worker].payload == ev.payload
    && !BeforeEvaluation(s.workers[ev.worker].pc)
    && (IsInflow(ev) ==>
          && ev.event == InflowEvent(ev.payload.amountKobo, ev.event.cumulativeKobo)
          && OwnsRowWith(s, ev.worker, ev.payload, ev.event.cumulativeKobo))
    && (!IsInflow(ev) ==> OwnsEvent(s, ev.worker, ev.payload))
  }

  ghost predicate LedgerInv(s: State) {
    && RefsUnique(s.ledger)
    && RunningTotals(s.ledger)
    && (forall i :: 0 <= i < |s.ledger| ==>
          s.ledger[i].writer < |s.workers| && !BeforeWrite(s.workers[s.ledger[i].writer].pc))
  }

  ghost predicate WorkerInv(s: State) {
    forall w :: 0 <= w < |s.workers| ==> Positioned(s, w)
  }

  ghost predicate EvaluationInv(s: State) {
    && (forall i :: 0 <= i < |s.evaluations| ==> Justified(s, s.evaluations[i]))
    && (forall i, j :: 0 <= i < j < |s.evaluations| ==> s.evaluations[i].worker != s.evaluations[j].worker)
  }

  ghost predicate Inv(s: State) {
    LedgerInv(s) && WorkerInv(s) && EvaluationInv(s)
  }

  // ----- What no step takes away

  predicate SameRow(e: LedgerEntry, f: LedgerEntry) {
    e == f.(reconciliation := e.reconciliation)
  }

  ghost predicate Extends(s: State, t: State) {
    && |s.ledger| <= |t.ledger| && (forall i :: 0 <= i < |s.ledger| ==> SameRow(s.ledger[i], t.ledger[i]))
    && (forall id :: id in s.processed ==> id in t.processed && t.processed[id] == s.processed[id])
    && |s.workers| <= |t.workers|
    && (forall w :: 0 <= w < |s.workers| ==>
          && t.workers[w].payload == s.workers[w].payload
          && (!BeforeWrite(s.workers[w].pc) ==> !BeforeWrite(t.workers[w].pc))
          && (!BeforeEvaluation(s.workers[w].pc) ==> !BeforeEvaluation(t.workers[w].pc)))
  }

  predicate Forward(from: Pc, to: Pc) {
    (!BeforeWrite(from) ==> !BeforeWrite(to)) && (!BeforeEvaluation(from) ==> !BeforeEvaluation(to))
  }

  lemma MoveExtends(s: State, t: State, w: nat, pc: Pc)
    requires w < |s.workers| && Forward(s.workers[w].pc, pc) && t.workers == s.workers[w := s.workers[w].(pc := pc)]
    requires t.ledger == s.ledger || (t.ledger != [] && t.ledger[..|t.ledger| - 1] == s.ledger)
    requires t.processed == s.processed
          || (s.workers[w].payload.eventId !in s.processed && t.processed == s.processed[s.workers[w].payload.eventId := w])
    ensures Extends(s, t)
  {
  }

  lemma RelabelExtends(s: State, t: State, w: nat, ref: string, status: ReconciliationStatus)
    requires w < |s.workers| && t.workers == s.workers[w := s.workers[w].(pc := Reconciled)]
    requires t.ledger == SetReconciliation(s.ledger, ref, status) && t.processed == s.processed
    ensures Extends(s, t)
  {
  }

  /** Run w moves from one position to another; nobody else moves. */
  ghost predicate OnlyMoves(s: State, t: State, w: nat)
    requires w < |s.workers|
  {
    && |t.workers| == |s.workers|
    && t.workers == s.workers[w := s.workers[w].(pc := t.workers[w].pc)]
    && Forward(s.workers[w].pc, t.workers[w].pc)
  }

  lemma AdvanceMoves(s: State, w: nat, matched: bool)
    requires w < |s.workers|
    ensures OnlyMoves(s, Advance(s, w, matched), w)
    ensures s.workers[w].pc == Done || s.workers[w].pc == Dead ==> Advance(s, w, matched) == s
  {
    match s.workers[w].pc
    case Started =>
    case NotSeen =>
    case Found(_) =>
    case Claimed =>
    case Recorded(_) =>
    case Evaluated(_) =>
    case Reconciled =>
    case Done => assert s.workers[w := s.workers[w].(pc := Done)] == s.workers;
    case Dead => assert s.workers[w := s.workers[w].(pc := Dead)] == s.workers;
  }

  lemma AdvanceExtends(s: State, w: nat, matched: bool)
    requires w < |s.workers|
    ensures Extends(s, Advance(s, w, matched))
  {
    var t := Advance(s, w, matched);
    AdvanceMoves(s, w, matched);
    if s.workers[w].pc.Evaluated? {
      RelabelExtends(s, t, w, s.workers[w].payload.transactionRef, if s.workers[w].pc.matched then MATCHED else UNMATCHED);
    } else {
      MoveExtends(s, t, w, t.workers[w].pc);
    }
  }

  lemma StepExtends(s: State, a: Action)
    ensures Extends(s, After(s, a))
  {
    if a.Work? && a.worker < |s.workers| {
      AdvanceExtends(s, a.worker, a.matched);
    }
  }

  lemma OwnershipExtends(s: State, t: State, w: nat, p: Payload, cumulative: nat)
    requires Extends(s, t)
    ensures OwnsRow(s, w, p) ==> OwnsRow(t, w, p)
    ensures OwnsRowWith(s, w, p, cumulative) ==> OwnsRowWith(t, w, p, cumulative)
    ensures OwnsEvent(s, w, p) ==> OwnsEvent(t, w, p)
  {
    if OwnsRow(s, w, p) {
      var i :| 0 <= i < |s.ledger| && IsRowOf(s.ledger[i], w, p);
      assert SameRow(s.ledger[i], t.ledger[i]);
      assert IsRowOf(t.ledger[i], w, p);
    }
    if OwnsRowWith(s, w, p, cumulative) {
      var i :| 0 <= i < |s.ledger| && IsRowOf(s.ledger[i], w, p) && s.ledger[i].cumulativeAmountKobo == cumulative;
      assert SameRow(s.ledger[i], t.ledger[i]);
      assert IsRowOf(t.ledger[i], w, p);
    }
  }

  lemma PositionExtends(s: State, t: State, w: nat)
    requires Extends(s, t) && w < |s.workers| && t.workers[w] == s.workers[w] && Positioned(s, w)
    ensures Positioned(t, w)
  {
    var c := if s.workers[w].pc.Recorded? then s.workers[w].pc.cumulative else 0;
    OwnershipExtends(s, t, w, s.workers[w].payload, c);
  }

  lemma JustificationExtends(s: State, t: State, ev: Evaluation)
    requires Extends(s, t) && Justified(s, ev)
    ensures Justified(t, ev)
  {
    OwnershipExtends(s, t, ev.worker, ev.payload, ev.event.cumulativeKobo);
  }

  lemma OldEvaluationsExtend(s: State, t: State)
    requires Extends(s, t) && EvaluationInv(s)
    ensures forall i :: 0 <= i < |s.evaluations| ==> Justified(t, s.evaluations[i])
  {
    forall i | 0 <= i < |s.evaluations| ensures Justified(t, s.evaluations[i]) {
      JustificationExtends(s, t, s.evaluations[i]);
    }
  }

  lemma OtherWorkersExtend(s: State, t: State, w: nat)
    requires Extends(s, t) && WorkerInv(s) && |t.workers| == |s.workers|
    requires forall v :: 0 <= v < |s.workers| && v != w ==> t.workers[v] == s.workers[v]
    requires w < |s.workers| ==> Positioned(t, w)
    ensures WorkerInv(t)
  {
    forall v | 0 <= v < |t.workers| ensures Positioned(t, v) {
      if v != w { PositionExtends(s, t, v); }
    }
  }

  // ----- Each kind of access keeps the invariant

  lemma GotoKeepsInv(s: State, w: nat, pc: Pc)
    requires Inv(s) && w < |s.workers| && (BeforeWrite(pc) || pc == Done || pc == Dead)
    requires !BeforeWrite(s.workers[w].pc) ==> !BeforeWrite(pc)
    ensures Inv(Goto(s, w, pc))
  {
    var t := Goto(s, w, pc);
    assert Extends(s, t);
    OtherWorkersExtend(s, t, w);
    OldEvaluationsExtend(s, t);
  }

  lemma FreshRow(s: State, w: nat, status: ReconciliationStatus) returns (row: LedgerEntry)
    requires w < |s.workers| && s.workers[w].pc.Found? && !HasRef(s.ledger, s.workers[w].payload.transactionRef)
    ensures var p := s.workers[w].payload;
      row == NewEntry(s.ledger, p.accountNumber, p.transactionRef, p.amountKobo, status, w, s.workers[w].pc.status)
    ensures var t := WriteInflow(s, w, status);
      && t.ledger == s.ledger + [row] && t.evaluations == s.evaluations && t.processed == s.processed
      && |t.workers| == |s.workers|
      && t.workers == s.workers[w := s.workers[w].(pc := if status == FLAGGED then Done else Recorded(row.cumulativeAmountKobo))]
  {
    var p := s.workers[w].payload;
    row := NewEntry(s.ledger, p.accountNumber, p.transactionRef, p.amountKobo, status, w, s.workers[w].pc.status);
  }

  lemma AppendKeepsLedgerInv(s: State, t: State, w: nat, row: LedgerEntry)
    requires LedgerInv(s) && Extends(s, t) && t.ledger == s.ledger + [row]
    requires !HasRef(s.ledger, row.transactionRef) && RunningTotals(t.ledger)
    requires row.writer == w < |t.workers| && !BeforeWrite(t.workers[w].pc)
    ensures LedgerInv(t)
  {
    forall i | 0 <= i < |t.ledger|
      ensures t.ledger[i].writer < |t.workers| && !BeforeWrite(t.workers[t.ledger[i].writer].pc)
    {
      if i < |s.ledger| { assert t.ledger[i] == s.ledger[i]; }
    }
  }

  lemma FreshWriteKeepsInv(s: State, t: State, w: nat, row: LedgerEntry)
    requires Inv(s) && w < |s.workers| == |t.workers| && s.workers[w].pc.Found? && !IsCustom(s.workers[w].payload)
    requires !HasRef(s.ledger, row.transactionRef) && row.writer == w
    requires t.ledger == s.ledger + [row] && RunningTotals(t.ledger)
    requires t.evaluations == s.evaluations && t.processed == s.processed
    requires t.workers == s.workers[w := s.workers[w].(pc := t.workers[w].pc)]
    requires t.workers[w].pc == Done
          || (t.workers[w].pc == Recorded(row.cumulativeAmountKobo) && IsRowOf(row, w, s.workers[w].payload))
    ensures Inv(t)
  {
    assert t.ledger[..|t.ledger| - 1] == s.ledger;
    MoveExtends(s, t, w, t.workers[w].pc);
    AppendKeepsLedgerInv(s, t, w, row);
    assert Positioned(t, w) by {
      assert t.ledger[|s.ledger|] == row;
    }
    OtherWorkersExtend(s, t, w);
    OldEvaluationsExtend(s, t);
  }

  lemma WriteKeepsInv(s: State, w: nat, status: ReconciliationStatus)
    requires Inv(s) && w < |s.workers| && s.workers[w].pc.Found? && !IsCustom(s.workers[w].payload)
    requires status == FLAGGED || s.workers[w].pc.status == ACTIVE
    ensures Inv(WriteInflow(s, w, status))
  {
    var p := s.workers[w].payload;
    if HasRef(s.ledger, p.transactionRef) {
      GotoKeepsInv(s, w, Done);
    } else {
      var row := FreshRow(s, w, status);
      AppendKeepsTotals(s.ledger, p.accountNumber, p.transactionRef, p.amountKobo, status, w, s.workers[w].pc.status);
      FreshWriteKeepsInv(s, WriteInflow(s, w, status), w, row);
    }
  }

  lemma ClaimKeepsInv(s: State, w: nat, next: Pc)
    requires Inv(s) && w < |s.workers|
    requires (s.workers[w].pc.Found? && IsCustom(s.workers[w].payload) && next == Claimed)
          || (s.workers[w].pc.Reconciled? && next == Done)
    ensures Inv(ClaimEvent(s, w, next))
  {
    if s.workers[w].payload.eventId in s.processed {
      GotoKeepsInv(s, w, Done);
    } else {
      var t := ClaimEvent(s, w, next);
      assert Extends(s, t);
      OtherWorkersExtend(s, t, w);
      OldEvaluationsExtend(s, t);
    }
  }

  /** A new evaluation by run w, which had not evaluated before. */
  lemma LogKeepsEvaluationInv(s: State, t: State, ev: Evaluation)
    requires EvaluationInv(s) && Extends(s, t) && t.evaluations == s.evaluations + [ev]
    requires ev.worker < |s.workers| && BeforeEvaluation(s.workers[ev.worker].pc) && Justified(t, ev)
    ensures EvaluationInv(t)
  {
    OldEvaluationsExtend(s, t);
    forall i | 0 <= i < |s.evaluations| ensures s.evaluations[i].worker != ev.worker {
      assert Justified(s, s.evaluations[i]);
    }
  }

  lemma EvaluateInflowKeepsInv(s: State, w: nat, matched: bool)
    requires Inv(s) && w < |s.workers| && s.workers[w].pc.Recorded?
    ensures Inv(Advance(s, w, matched))
  {
    var t := Advance(s, w, matched);
    var p, c := s.workers[w].payload, s.workers[w].pc.cumulative;
    assert Positioned(s, w);
    AdvanceExtends(s, w, matched);
    OwnershipExtends(s, t, w, p, c);
    var i :| 0 <= i < |t.ledger| && IsRowOf(t.ledger[i], w, p) && t.ledger[i].cumulativeAmountKobo == c;
    OtherWorkersExtend(s, t, w);
    LogKeepsEvaluationInv(s, t, Evaluation(w, p, InflowEvent(p.amountKobo, c)));
  }

  lemma EvaluateCustomKeepsInv(s: State, w: nat, matched: bool)
    requires Inv(s) && w < |s.workers| && s.workers[w].pc.Claimed?
    ensures Inv(Advance(s, w, matched))
  {
    var t := Advance(s, w, matched);
    var p := s.workers[w].payload;
    assert Positioned(s, w);
    AdvanceExtends(s, w, matched);
    OwnershipExtends(s, t, w, p, 0);
    OtherWorkersExtend(s, t, w);
    LogKeepsEvaluationInv(s, t, Evaluation(w, p, CustomEventOf(p.eventType.value)));
  }

  lemma RelabelKeepsLedgerInv(s: State, t: State, ref: string, status: ReconciliationStatus)
    requires LedgerInv(s) && Extends(s, t) && t.ledger == SetReconciliation(s.ledger, ref, status)
    ensures LedgerInv(t)
  {
    ReconciliationKeepsTotals(s.ledger, ref, status);
    ReconciliationKeepsRefs(s.ledger, ref, status);
    forall i | 0 <= i < |t.ledger|
      ensures t.ledger[i].writer < |t.workers| && !BeforeWrite(t.workers[t.ledger[i].writer].pc)
    {
      assert t.ledger[i].writer == s.ledger[i].writer;
    }
  }

  lemma RelabelKeepsInv(s: State, t: State, w: nat, ref: string, status: ReconciliationStatus)
    requires Inv(s) && w < |s.workers| && s.workers[w].pc.Evaluated? && Extends(s, t)
    requires |t.workers| == |s.workers| && (t.workers[w].pc == s.workers[w].pc || t.workers[w].pc == Reconciled)
    requires forall v :: 0 <= v < |s.workers| && v != w ==> t.workers[v] == s.workers[v]
    requires t.ledger == SetReconciliation(s.ledger, ref, status) && t.evaluations == s.evaluations
    ensures Inv(t)
  {
    assert Positioned(s, w);
    RelabelKeepsLedgerInv(s, t, ref, status);
    OwnershipExtends(s, t, w, s.workers[w].payload, 0);
    OtherWorkersExtend(s, t, w);
    OldEvaluationsExtend(s, t);
  }

  lemma WorkKeepsInv(s: State, w: nat, matched: bool)
    requires Inv(s) && w < |s.workers|
    ensures Inv(Advance(s, w, matched))
  {
    var p := s.workers[w].payload;
    match s.workers[w].pc
    case Started => GotoKeepsInv(s, w, if p.eventId in s.processed then Done else NotSeen);
    case NotSeen =>
      GotoKeepsInv(s, w, if p.accountNumber in s.accounts then Found(s.accounts[p.accountNumber]) else Done);
    case Found(status) =>
      if IsCustom(p) {
        ClaimKeepsInv(s, w, Claimed);
      } else if status == CLOSED || status == EXPIRED {
        GotoKeepsInv(s, w, Done);
      } else {
        WriteKeepsInv(s, w, if status == SUSPENDED then FLAGGED else PENDING);
      }
    case Claimed => EvaluateCustomKeepsInv(s, w, matched);
    case Recorded(_) => EvaluateInflowKeepsInv(s, w, matched);
    case Evaluated(found) =>
      AdvanceExtends(s, w, matched);
      RelabelKeepsInv(s, Advance(s, w, matched), w, p.transactionRef, if found then MATCHED else UNMATCHED);
    case Reconciled => ClaimKeepsInv(s, w, Done);
    case Done =>
    case Dead =>
  }

  lemma DeliverKeepsInv(s: State, p: Payload)
    requires Inv(s)
    ensures Inv(After(s, Deliver(p)))
  {
    var t := After(s, Deliver(p));
    assert Extends(s, t);
    forall v | 0 <= v < |t.workers| ensures Positioned(t, v) {
      if v < |s.workers| { PositionExtends(s, t, v); }
    }
    OldEvaluationsExtend(s, t);
  }

  lemma StatusKeepsInv(s: State, t: State)
    requires Inv(s) && t == s.(accounts := t.accounts)
    ensures Inv(t)
  {
    assert Extends(s, t);
    forall v | 0 <= v < |t.workers| ensures Positioned(t, v) {
      PositionExtends(s, t, v);
    }
    OldEvaluationsExtend(s, t);
  }

  lemma StepKeepsInv(s: State, a: Action)
    requires Inv(s)
    ensures Inv(After(s, a))
  {
    match a
    case OpenAccount(_) => StatusKeepsInv(s, After(s, a));
    case SetStatus(_, _) => StatusKeepsInv(s, After(s, a));
    case Deliver(p) => DeliverKeepsInv(s, p);
    case Work(w, matched) => if w < |s.workers| { WorkKeepsInv(s, w, matched); }
    case FlagRow(w) =>
      if w < |s.workers| && s.workers[w].pc == Evaluated(true) {
        StepExtends(s, a);
        RelabelKeepsInv(s, After(s, a), w, s.workers[w].payload.transactionRef, FLAGGED);
      }
    case Crash(w) => if w < |s.workers| && s.workers[w].pc != Done { GotoKeepsInv(s, w, Dead); }
  }

  lemma {:induction false} RunKeepsInv(s: State, actions: seq<Action>)
    requires Inv(s)
    ensures Inv(Run(s, actions))
    decreases |actions|
  {
    if actions == [] {
    } else {
      StepKeepsInv(s, actions[0]);
      RunKeepsInv(After(s, actions[0]), actions[1..]);
    }
  }

  // ----- The theorems

  /** In every run: one ledger row per transactionRef, and each row carries its account's running total,
      inflows held back while SUSPENDED included. */
  lemma OneRowPerTransaction(actions: seq<Action>)
    ensures RefsUnique(Run(INITIAL, actions).ledger) && RunningTotals(Run(INITIAL, actions).ledger)
  {
    RunKeepsInv(INITIAL, actions);
  }

  /** In every run, under any interleaving of duplicate deliveries, redeliveries and crashes: rules are
      evaluated at most once per transactionRef and at most once per custom eventId. */
  lemma RulesEvaluatedAtMostOnce(actions: seq<Action>, i: nat, j: nat)
    requires i < j < |Run(INITIAL, actions).evaluations|
    ensures var t := Run(INITIAL, actions);
            var a, b := t.evaluations[i], t.evaluations[j];
      && (IsInflow(a) && IsInflow(b) ==> a.payload.transactionRef != b.payload.transactionRef)
      && (!IsInflow(a) && !IsInflow(b) ==> a.payload.eventId != b.payload.eventId)
  {
    var t := Run(INITIAL, actions);
    RunKeepsInv(INITIAL, actions);
    assert Justified(t, t.evaluations[i]) && Justified(t, t.evaluations[j]);
  }

  /** An inflow is evaluated by the run that recorded it, with exactly the amounts of its ledger row, and only if
      that run had read the account as ACTIVE: never when it was first recorded while SUSPENDED. */
  lemma EvaluatedAsRecorded(actions: seq<Action>, k: nat, i: nat)
    requires var t := Run(INITIAL, actions);
      k < |t.evaluations| && i < |t.ledger| && IsInflow(t.evaluations[k])
      && t.ledger[i].transactionRef == t.evaluations[k].payload.transactionRef
    ensures var t := Run(INITIAL, actions);
      && t.ledger[i].seen == ACTIVE
      && t.ledger[i].writer == t.evaluations[k].worker
      && t.evaluations[k].event == InflowEvent(t.ledger[i].amountKobo, t.ledger[i].cumulativeAmountKobo)
  {
    var t := Run(INITIAL, actions);
    RunKeepsInv(INITIAL, actions);
    var ev := t.evaluations[k];
    assert Justified(t, ev);
    var r :| 0 <= r < |t.ledger| && IsRowOf(t.ledger[r], ev.worker, ev.payload)
             && t.ledger[r].cumulativeAmountKobo == ev.event.cumulativeKobo;
    assert r == i;
  }

  /** Once a rule bounded only by `cumulative_gte` has matched an evaluated inflow, it matches every evaluated
      inflow that was recorded later on the same account. */
  lemma ThresholdPersistsAcrossRuns(actions: seq<Action>, c: InflowCondition, k: nat, l: nat, i: nat, j: nat)
    requires var t := Run(INITIAL, actions);
      k < |t.evaluations| && l < |t.evaluations| && IsInflow(t.evaluations[k]) && IsInflow(t.evaluations[l])
      && i <= j < |t.ledger| && t.ledger[i].account == t.ledger[j].account
      && t.ledger[i].transactionRef == t.evaluations[k].payload.transactionRef
      && t.ledger[j].transactionRef == t.evaluations[l].payload.transactionRef
    requires OnlyCumulative(c)
    requires var e := Run(INITIAL, actions).evaluations[k].event; MatchesInflow(c, e.amountKobo, e.cumulativeKobo)
    ensures var e := Run(INITIAL, actions).evaluations[l].event; MatchesInflow(c, e.amountKobo, e.cumulativeKobo)
  {
    OneRowPerTransaction(actions);
    EvaluatedAsRecorded(actions, k, i);
    EvaluatedAsRecorded(actions, l, j);
    ThresholdPersists(Run(INITIAL, actions).ledger, i, j, c);
  }

  /** The eventId does not gate inflows: a run that has passed the first check evaluates a new transaction even if
      another run has meanwhile claimed the same eventId. */
  lemma EventIdDoesNotGateInflows(s: State, w: nat, matched: bool)
    requires w < |s.workers| && s.workers[w].pc == Found(ACTIVE) && !IsCustom(s.workers[w].payload)
    requires !HasRef(s.ledger, s.workers[w].payload.transactionRef)
    ensures var t := After(After(s, Work(w, matched)), Work(w, matched));
      |t.evaluations| == |s.evaluations| + 1 && t.evaluations[|s.evaluations|].payload == s.workers[w].payload
      && t.processed == s.processed
  {
    var s1 := After(s, Work(w, matched));
    assert s1.workers[w].pc.Recorded?;
  }

  // ----- At most once is not exactly once

  ghost predicate EvaluatedRef(s: State, ref: string) {
    exists k :: 0 <= k < |s.evaluations| && IsInflow(s.evaluations[k]) && s.evaluations[k].payload.transactionRef == ref
  }

  /** A row whose writer died before evaluating it, or was held back. */
  ghost predicate Lost(s: State, i: nat) {
    && i < |s.ledger| && s.ledger[i].writer < |s.workers|
    && !EvaluatedRef(s, s.ledger[i].transactionRef)
    && (HeldBack(s.ledger[i]) || s.workers[s.ledger[i].writer].pc == Dead)
  }

  lemma NewEvaluation(s: State, a: Action)
    ensures After(s, a).evaluations == s.evaluations
         || (a.Work? && a.worker < |s.workers|
             && (s.workers[a.worker].pc.Recorded? || s.workers[a.worker].pc.Claimed?)
             && |After(s, a).evaluations| == |s.evaluations| + 1
             && After(s, a).evaluations[..|s.evaluations|] == s.evaluations
             && After(s, a).evaluations[|s.evaluations|].worker == a.worker)
  {
  }

  lemma DeadStaysDead(s: State, a: Action, w: nat)
    requires w < |s.workers| && s.workers[w].pc == Dead
    ensures w < |After(s, a).workers| && After(s, a).workers[w].pc == Dead
  {
    if a.Work? && a.worker < |s.workers| { AdvanceMoves(s, a.worker, a.matched); }
  }

  /** The run that evaluates an inflow is the one that wrote its row. */
  lemma EvaluatorWroteRow(s: State, ev: Evaluation, i: nat)
    requires Inv(s) && Justified(s, ev) && IsInflow(ev)
    requires i < |s.ledger| && s.ledger[i].transactionRef == ev.payload.transactionRef
    ensures s.ledger[i].writer == ev.worker && s.ledger[i].seen == ACTIVE
  {
    var r :| 0 <= r < |s.ledger| && IsRowOf(s.ledger[r], ev.worker, ev.payload)
             && s.ledger[r].cumulativeAmountKobo == ev.event.cumulativeKobo;
    assert r == i;
  }

  lemma StillNotEvaluated(s: State, t: State, ref: string)
    requires !EvaluatedRef(s, ref)
    requires t.evaluations == s.evaluations
          || (|t.evaluations| == |s.evaluations| + 1 && t.evaluations[..|s.evaluations|] == s.evaluations
              && (IsInflow(t.evaluations[|s.evaluations|]) ==>
                    t.evaluations[|s.evaluations|].payload.transactionRef != ref))
    ensures !EvaluatedRef(t, ref)
  {
    forall k | 0 <= k < |t.evaluations| && IsInflow(t.evaluations[k])
      ensures t.evaluations[k].payload.transactionRef != ref
    {
      if k < |s.evaluations| { assert t.evaluations[k] == s.evaluations[k]; }
    }
  }

  /** A fresh inflow evaluation is made by a run that was alive. */
  lemma NewEvaluatorWasAlive(s: State, a: Action, i: nat)
    requires Inv(s) && i < |s.ledger| && After(s, a).evaluations != s.evaluations
    ensures var t := After(s, a);
      |t.evaluations| == |s.evaluations| + 1
      && var ev := t.evaluations[|s.evaluations|];
         IsInflow(ev) && ev.payload.transactionRef == s.ledger[i].transactionRef ==>
           s.ledger[i].writer < |s.workers| && s.workers[s.ledger[i].writer].pc != Dead && s.ledger[i].seen == ACTIVE
  {
    var t := After(s, a);
    NewEvaluation(s, a);
    StepExtends(s, a);
    StepKeepsInv(s, a);
    assert SameRow(s.ledger[i], t.ledger[i]);
    var ev := t.evaluations[|s.evaluations|];
    assert Justified(t, ev);
    if IsInflow(ev) && ev.payload.transactionRef == s.ledger[i].transactionRef {
      EvaluatorWroteRow(t, ev, i);
    }
  }

  lemma StepKeepsLost(s: State, a: Action, i: nat)
    requires Inv(s) && Lost(s, i)
    ensures Lost(After(s, a), i)
  {
    var t := After(s, a);
    StepExtends(s, a);
    assert SameRow(s.ledger[i], t.ledger[i]);
    NewEvaluation(s, a);
    if t.evaluations != s.evaluations { NewEvaluatorWasAlive(s, a, i); }
    StillNotEvaluated(s, t, s.ledger[i].transactionRef);
    if !HeldBack(s.ledger[i]) { DeadStaysDead(s, a, s.ledger[i].writer); }
  }

  /** Such a row is lost for good: no later delivery of the event, in any run, evaluates rules for it. */
  lemma {:induction false} LostForever(s: State, actions: seq<Action>, i: nat)
    requires Inv(s) && Lost(s, i)
    ensures Lost(Run(s, actions), i) && !EvaluatedRef(Run(s, actions), s.ledger[i].transactionRef)
    decreases |actions|
  {
    if actions == [] {
    } else {
      StepKeepsInv(s, actions[0]);
      StepKeepsLost(s, actions[0], i);
      StepExtends(s, actions[0]);
      assert SameRow(s.ledger[i], After(s, actions[0]).ledger[i]);
      LostForever(After(s, actions[0]), actions[1..], i);
    }
  }

  // ----- The fate of every recorded inflow

  /** How far a row has got, told from the run that wrote it. */
  ghost predicate Followed(s: State, i: nat) {
    && i < |s.ledger| && s.ledger[i].writer < |s.workers|
    && s.workers[s.ledger[i].writer].payload.transactionRef == s.ledger[i].transactionRef
    && !IsCustom(s.workers[s.ledger[i].writer].payload)
    && s.ledger[i].account == s.workers[s.ledger[i].writer].payload.accountNumber
    && s.ledger[i].amountKobo == s.workers[s.ledger[i].writer].payload.amountKobo
    && var pc, status, ref := s.workers[s.ledger[i].writer].pc, s.ledger[i].reconciliation, s.ledger[i].transactionRef;
       if HeldBack(s.ledger[i]) then pc == Done && status == FLAGGED
       else
         && s.ledger[i].seen == ACTIVE &&
         match pc
         case Recorded(_) => status == PENDING
         case Evaluated(_) => EvaluatedRef(s, ref)
         case Reconciled => EvaluatedRef(s, ref) && (status == MATCHED || status == UNMATCHED)
         case Done => EvaluatedRef(s, ref) && (status == MATCHED || status == UNMATCHED)
         case Dead => true
         case _ => false
  }

  ghost predicate AllFollowed(s: State) {
    forall i :: 0 <= i < |s.ledger| ==> Followed(s, i)
  }

  lemma EvaluatedStays(s: State, a: Action, ref: string)
    requires EvaluatedRef(s, ref)
    ensures EvaluatedRef(After(s, a), ref)
  {
    NewEvaluation(s, a);
    var k :| 0 <= k < |s.evaluations| && IsInflow(s.evaluations[k]) && s.evaluations[k].payload.transactionRef == ref;
    assert After(s, a).evaluations[k] == s.evaluations[k];
  }

  /** A run past recording relabels only the row it wrote. */
  lemma RelabelsOwnRow(s: State, w: nat, i: nat)
    requires Inv(s) && w < |s.workers| && (s.workers[w].pc.Recorded? || s.workers[w].pc.Evaluated?)
    requires i < |s.ledger| && s.ledger[i].transactionRef == s.workers[w].payload.transactionRef
    ensures s.ledger[i].writer == w && s.ledger[i].seen == ACTIVE
  {
    assert Positioned(s, w);
    var r :| 0 <= r < |s.ledger| && IsRowOf(s.ledger[r], w, s.workers[w].payload);
    assert r == i;
  }

  lemma FollowedFrame(s: State, t: State, i: nat)
    requires Followed(s, i) && i < |t.ledger| && t.ledger[i] == s.ledger[i] && |s.workers| <= |t.workers|
    requires t.workers[s.ledger[i].writer] == s.workers[s.ledger[i].writer]
    requires EvaluatedRef(s, s.ledger[i].transactionRef) ==> EvaluatedRef(t, s.ledger[i].transactionRef)
    ensures Followed(t, i)
  {
  }

  /** Work of one run leaves the rows of all other runs alone. */
  lemma OtherRowUntouched(s: State, w: nat, matched: bool, i: nat)
    requires Inv(s) && w < |s.workers| && i < |s.ledger| && s.ledger[i].writer != w
    ensures i < |Advance(s, w, matched).ledger| && Advance(s, w, matched).ledger[i] == s.ledger[i]
    ensures |Advance(s, w, matched).workers| == |s.workers|
    ensures s.ledger[i].writer < |s.workers| ==>
      Advance(s, w, matched).workers[s.ledger[i].writer] == s.workers[s.ledger[i].writer]
  {
    AdvanceMoves(s, w, matched);
    if s.workers[w].pc.Evaluated? && s.ledger[i].transactionRef == s.workers[w].payload.transactionRef {
      RelabelsOwnRow(s, w, i);
    }
  }

  lemma OtherRowWorked(s: State, w: nat, matched: bool, i: nat)
    requires Inv(s) && Followed(s, i) && w < |s.workers| && s.ledger[i].writer != w
    ensures Followed(After(s, Work(w, matched)), i)
  {
    var a := Work(w, matched);
    var ref := s.ledger[i].transactionRef;
    assert EvaluatedRef(s, ref) ==> EvaluatedRef(After(s, a), ref) by {
      if EvaluatedRef(s, ref) { EvaluatedStays(s, a, ref); }
    }
    OtherRowUntouched(s, w, matched, i);
    FollowedFrame(s, After(s, a), i);
  }

  lemma OwnRowEvaluated(s: State, w: nat, matched: bool, i: nat)
    requires Inv(s) && Followed(s, i) && w < |s.workers| && s.ledger[i].writer == w && s.workers[w].pc.Recorded?
    ensures Followed(Advance(s, w, matched), i)
  {
    var t := Advance(s, w, matched);
    assert Positioned(s, w);
    var ev := t.evaluations[|s.evaluations|];
    assert IsInflow(ev) && ev.payload.transactionRef == s.ledger[i].transactionRef;
  }

  lemma OwnRowWorked(s: State, w: nat, matched: bool, i: nat)
    requires Inv(s) && Followed(s, i) && w < |s.workers| && s.ledger[i].writer == w
    ensures Followed(Advance(s, w, matched), i)
  {
    if s.workers[w].pc.Recorded? {
      OwnRowEvaluated(s, w, matched, i);
    } else if EvaluatedRef(s, s.ledger[i].transactionRef) {
      EvaluatedStays(s, Work(w, matched), s.ledger[i].transactionRef);
    }
  }

  lemma AdvanceGrowth(s: State, w: nat, matched: bool)
    requires w < |s.workers|
    ensures |Advance(s, w, matched).ledger| == |s.ledger|
         || (s.workers[w].pc.Found? && |Advance(s, w, matched).ledger| == |s.ledger| + 1)
  {
    match s.workers[w].pc
    case Found(_) =>
    case Evaluated(_) =>
    case _ =>
  }

  lemma NewRowFollowed(s: State, w: nat, matched: bool)
    requires w < |s.workers| && |Advance(s, w, matched).ledger| == |s.ledger| + 1
    ensures Followed(Advance(s, w, matched), |s.ledger|)
  {
    AdvanceGrowth(s, w, matched);
  }

  lemma FlaggedRowFollowed(s: State, w: nat, i: nat)
    requires Inv(s) && Followed(s, i) && w < |s.workers| && s.workers[w].pc == Evaluated(true)
    ensures Followed(After(s, FlagRow(w)), i)
  {
    var t := After(s, FlagRow(w));
    assert t.evaluations == s.evaluations && t.workers == s.workers;
    assert EvaluatedRef(t, s.ledger[i].transactionRef) == EvaluatedRef(s, s.ledger[i].transactionRef);
    if s.ledger[i].transactionRef == s.workers[w].payload.transactionRef {
      RelabelsOwnRow(s, w, i);
    } else {
      FollowedFrame(s, t, i);
    }
  }

  lemma CrashedRowFollowed(s: State, w: nat, i: nat)
    requires Followed(s, i) && w < |s.workers| && s.workers[w].pc != Done
    ensures Followed(After(s, Crash(w)), i)
  {
    var t := After(s, Crash(w));
    assert t.evaluations == s.evaluations && t.ledger == s.ledger;
    if s.ledger[i].writer != w {
      assert EvaluatedRef(t, s.ledger[i].transactionRef) == EvaluatedRef(s, s.ledger[i].transactionRef);
      FollowedFrame(s, t, i);
    }
  }

  lemma OldRowElsewhere(s: State, a: Action, i: nat)
    requires Inv(s) && Followed(s, i) && !a.Work?
    ensures Followed(After(s, a), i)
  {
    if a.FlagRow? {
      if a.worker < |s.workers| && s.workers[a.worker].pc == Evaluated(true) { FlaggedRowFollowed(s, a.worker, i); }
    } else if a.Crash? {
      if a.worker < |s.workers| && s.workers[a.worker].pc != Done { CrashedRowFollowed(s, a.worker, i); }
    } else {
      var t := After(s, a);
      assert t.evaluations == s.evaluations && t.ledger == s.ledger;
      assert EvaluatedRef(t, s.ledger[i].transactionRef) == EvaluatedRef(s, s.ledger[i].transactionRef);
      FollowedFrame(s, t, i);
    }
  }

  lemma OldRowFollowed(s: State, a: Action, i: nat)
    requires Inv(s) && Followed(s, i)
    ensures Followed(After(s, a), i)
  {
    if !a.Work? {
      OldRowElsewhere(s, a, i);
    } else if a.worker < |s.workers| {
      if s.ledger[i].writer == a.worker { OwnRowWorked(s, a.worker, a.matched, i); }
      else { OtherRowWorked(s, a.worker, a.matched, i); }
    }
  }

  lemma RowFollowed(s: State, a: Action, i: nat)
    requires Inv(s) && AllFollowed(s) && i < |After(s, a).ledger|
    ensures Followed(After(s, a), i)
  {
    if i < |s.ledger| {
      assert Followed(s, i);
      OldRowFollowed(s, a, i);
    } else {
      AppendedRowFollowed(s, a, i);
    }
  }

  lemma AppendedRowFollowed(s: State, a: Action, i: nat)
    requires |s.ledger| <= i < |After(s, a).ledger|
    ensures Followed(After(s, a), i)
  {
    assert a.Work? && a.worker < |s.workers|;
    AdvanceGrowth(s, a.worker, a.matched);
    NewRowFollowed(s, a.worker, a.matched);
  }

  lemma StepFollows(s: State, a: Action)
    requires Inv(s) && AllFollowed(s)
    ensures AllFollowed(After(s, a))
  {
    forall i | 0 <= i < |After(s, a).ledger| ensures Followed(After(s, a), i) {
      RowFollowed(s, a, i);
    }
  }

  lemma {:induction false} RunFollows(s: State, actions: seq<Action>)
    requires Inv(s) && AllFollowed(s)
    ensures Inv(Run(s, actions)) && AllFollowed(Run(s, actions))
    decreases |actions|
  {
    if actions == [] {
    } else {
      StepKeepsInv(s, actions[0]);
      StepFollows(s, actions[0]);
      RunFollows(After(s, actions[0]), actions[1..]);
    }
  }

  lemma NotEvaluatedWhileRecorded(s: State, i: nat)
    requires Inv(s) && Followed(s, i) && s.workers[s.ledger[i].writer].pc.Recorded?
    ensures !EvaluatedRef(s, s.ledger[i].transactionRef)
  {
    if EvaluatedRef(s, s.ledger[i].transactionRef) {
      var k :| 0 <= k < |s.evaluations| && IsInflow(s.evaluations[k])
               && s.evaluations[k].payload.transactionRef == s.ledger[i].transactionRef;
      assert Justified(s, s.evaluations[k]);
      EvaluatorWroteRow(s, s.evaluations[k], i);
    }
  }

  /** In every run each ledger row is in exactly one of three situations: its rules were evaluated; the run that
      wrote it is just about to evaluate them; or it is lost for good. So recording is exactly-once but
      evaluation is only at-most-once: a crash between the two is never repaired by redelivery. */
  lemma FateOfEveryInflow(actions: seq<Action>, i: nat)
    requires i < |Run(INITIAL, actions).ledger|
    ensures var t := Run(INITIAL, actions);
            var evaluated := EvaluatedRef(t, t.ledger[i].transactionRef);
            var pending := t.ledger[i].writer < |t.workers| && t.workers[t.ledger[i].writer].pc.Recorded?;
      && (evaluated || pending || Lost(t, i))
      && !(evaluated && pending) && !(evaluated && Lost(t, i)) && !(pending && Lost(t, i))
  {
    var t := Run(INITIAL, actions);
    RunFollows(INITIAL, actions);
    assert Followed(t, i);
    if t.workers[t.ledger[i].writer].pc.Recorded? { NotEvaluatedWhileRecorded(t, i); }
  }

  /** The crash that loses an inflow: any run that has recorded its row and dies before evaluating. */
  lemma CrashLosesInflow(s: State, w: nat)
    requires Inv(s) && AllFollowed(s) && w < |s.workers| && s.workers[w].pc.Recorded?
    ensures exists i :: Lost(After(s, Crash(w)), i)
  {
    assert Positioned(s, w);
    var i :| 0 <= i < |s.ledger| && IsRowOf(s.ledger[i], w, s.workers[w].payload);
    NotEvaluatedWhileRecorded(s, i);
    assert Lost(After(s, Crash(w)), i);
  }

  /** FLAG_FOR_REVIEW does not last: once the run that executed it has finished, its row says MATCHED or UNMATCHED.
      Only rows held back while SUSPENDED stay FLAGGED. */
  lemma FlagIsOverwritten(actions: seq<Action>, i: nat)
    requires var t := Run(INITIAL, actions);
      i < |t.ledger| && t.ledger[i].writer < |t.workers| && t.workers[t.ledger[i].writer].pc == Done
    ensures var t := Run(INITIAL, actions);
      t.ledger[i].reconciliation == FLAGGED <==> HeldBack(t.ledger[i])
  {
    RunFollows(INITIAL, actions);
    assert Followed(Run(INITIAL, actions), i);
  }

  /** In every run each row, recorded while ACTIVE or SUSPENDED, carries the account, the transaction and the amount of
      the inflow that its run was delivered. */
  lemma RowCarriesPayload(actions: seq<Action>, i: nat)
    requires i < |Run(INITIAL, actions).ledger|
    ensures var t := Run(INITIAL, actions);
      && t.ledger[i].writer < |t.workers|
      && var p := t.workers[t.ledger[i].writer].payload;
         && t.ledger[i].account == p.accountNumber && t.ledger[i].transactionRef == p.transactionRef
         && t.ledger[i].amountKobo == p.amountKobo && !IsCustom(p)
  {
    RunFollows(INITIAL, actions);
    assert Followed(Run(INITIAL, actions), i);
  }
}
