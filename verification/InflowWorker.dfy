/** The webhook worker as a protocol: many runs of the same or different jobs interleave at every
    database access, may crash anywhere and may be delivered again. */
module InflowWorker {
  import opened Wrappers
  import opened AccountStatuses
  import opened RuleEngine
  import opened AccountLedger

  datatype Payload = Payload(
    eventId: string,
    transactionRef: string,
    accountNumber: string,
    amountKobo: nat,
    eventType: Option<string>)

  predicate IsCustom(p: Payload) {
    p.eventType.Some? && p.eventType.value != "" && p.eventType.value != NOMBA_INFLOW
  }

  /** Where a run stands. */
  datatype Pc =
    | Started
    | NotSeen                           // no ProcessedEvent row was found
    | Found(status: AccountStatus)      // the account row was read with this status
    | Claimed                           // custom event: the ProcessedEvent row was written
    | Recorded(cumulative: nat)         // inflow: the PENDING ledger row was written, with this total
    | Evaluated(matched: bool)          // rules were evaluated, the matching ones are executing
    | Reconciled                        // MATCHED or UNMATCHED was written
    | Done
    | Dead                              // crashed or threw

  datatype Worker = Worker(payload: Payload, pc: Pc)

  /** History of rule evaluations. */
  datatype Evaluation = Evaluation(worker: nat, payload: Payload, event: Event)

  /** `processed` maps each eventId in the ProcessedEvent table to the run that inserted it. */
  datatype State = State(
    accounts: map<string, AccountStatus>,
    ledger: seq<LedgerEntry>,
    processed: map<string, nat>,
    workers: seq<Worker>,
    evaluations: seq<Evaluation>)

  const INITIAL := State(map[], [], map[], [], [])

  function Goto(s: State, w: nat, pc: Pc): State
    requires w < |s.workers|
  {
    s.(workers := s.workers[w := s.workers[w].(pc := pc)])
  }

  /** The transaction of writeInflow; a duplicate transactionRef violates the unique key and the run is discarded. */
  function WriteInflow(s: State, w: nat, status: ReconciliationStatus): State
    requires w < |s.workers| && s.workers[w].pc.Found?
  {
    var p := s.workers[w].payload;
    if HasRef(s.ledger, p.transactionRef) then Goto(s, w, Done)
    else
      var row := NewEntry(s.ledger, p.accountNumber, p.transactionRef, p.amountKobo, status, w, s.workers[w].pc.status);
      Goto(s, w, if status == FLAGGED then Done else Recorded(row.cumulativeAmountKobo)).(ledger := s.ledger + [row])
  }

  function ClaimEvent(s: State, w: nat, next: Pc): State
    requires w < |s.workers|
  {
    var p := s.workers[w].payload;
    if p.eventId in s.processed then Goto(s, w, Done)
    else Goto(s, w, next).(processed := s.processed[p.eventId := w])
  }

  /** The next atomic access of run w. `matched`: whether evaluation finds a matching rule. */
  function Advance(s: State, w: nat, matched: bool): State
    requires w < |s.workers|
  {
    var p := s.workers[w].payload;
    match s.workers[w].pc
    case Started => Goto(s, w, if p.eventId in s.processed then Done else NotSeen)
    case NotSeen =>
      Goto(s, w, if p.accountNumber in s.accounts then Found(s.accounts[p.accountNumber]) else Done)
    case Found(status) =>
      if IsCustom(p) then ClaimEvent(s, w, Claimed)
      else if status == SUSPENDED then WriteInflow(s, w, FLAGGED)
      else if status == CLOSED || status == EXPIRED then Goto(s, w, Done)
      else WriteInflow(s, w, PENDING)
    case Claimed =>
      if !IsCustom(p) then s
      else Goto(s, w, Done).(evaluations := s.evaluations + [Evaluation(w, p, CustomEventOf(p.eventType.value))])
    case Recorded(cumulative) =>
      Goto(s, w, Evaluated(matched)).(
        evaluations := s.evaluations + [Evaluation(w, p, InflowEvent(p.amountKobo, cumulative))])
    case Evaluated(found) =>
      Goto(s, w, Reconciled).(ledger := SetReconciliation(s.ledger, p.transactionRef, if found then MATCHED else UNMATCHED))
    case Reconciled => ClaimEvent(s, w, Done)
    case Done => s
    case Dead => s
  }

  datatype Action =
    | OpenAccount(account: string)
    | SetStatus(account: string, status: AccountStatus)
    | Deliver(payload: Payload)
    | Work(worker: nat, matched: bool)
    | FlagRow(worker: nat)  // a FLAG_FOR_REVIEW rule of the run executes
    | Crash(worker: nat)

  function After(s: State, a: Action): State {
    match a
    case OpenAccount(account) => if account in s.accounts then s else s.(accounts := s.accounts[account := ACTIVE])
    case SetStatus(account, status) => if account in s.accounts then s.(accounts := s.accounts[account := status]) else s
    case Deliver(payload) => s.(workers := s.workers + [Worker(payload, Started)])
    case Work(w, matched) => if w < |s.workers| then Advance(s, w, matched) else s
    case FlagRow(w) =>
      if w < |s.workers| && s.workers[w].pc == Evaluated(true)
      then s.(ledger := SetReconciliation(s.ledger, s.workers[w].payload.transactionRef, FLAGGED))
      else s
    case Crash(w) => if w < |s.workers| && s.workers[w].pc != Done then Goto(s, w, Dead) else s
  }

  function Run(s: State, actions: seq<Action>): State
    decreases |actions|
  {
    if actions == [] then s else Run(After(s, actions[0]), actions[1..])
  }

  lemma {:induction false} RunConcat(s: State, a: seq<Action>, b: seq<Action>)
    ensures Run(s, a + b) == Run(Run(s, a), b)
    decreases |a|
  {
    if a == [] {
      assert a + b == b;
    } else {
      assert (a + b)[1..] == a[1..] + b;
      RunConcat(After(s, a[0]), a[1..], b);
    }
  }

  lemma RunSnoc(s: State, actions: seq<Action>, a: Action)
    ensures Run(s, actions + [a]) == After(Run(s, actions), a)
  {
    RunConcat(s, actions, [a]);
    assert [a][1..] == [];
    assert Run(After(Run(s, actions), a), []) == After(Run(s, actions), a);
  }
}
