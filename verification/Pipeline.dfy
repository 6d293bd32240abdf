/** From the webhook to the treasury: the worker runs of InflowWorker evaluate the rule tables of RuleSets and
    execute what matched through Release, while requests change the rules, retries run, and anything crashes. */
module Pipeline {
  import opened Wrappers
  import opened RuleEngine
  import opened AccountLedger
  import RS = RuleSets
  import W = InflowWorker
  import R = Release

  /** A rule as the evaluation fetched it, with its account's business. */
  datatype Fetched = Fetched(rule: nat, businessId: string, definition: RuleDefinition)

  /** The ledger row as the worker read it back. */
  datatype Record = Record(entry: nat, transactionRef: string, amountKobo: nat)

  /** What a worker run holds in memory: the execution model read with the account, the rules that matched, the
      ledger row, and how many of the rules it has started. */
  datatype Plan = Plan(model: ExecutionModel, matched: seq<Fetched>, record: Option<Record>, next: nat)

  /** `plans[w]` belongs to worker run w. An account has one key in all tables. */
  datatype State = State(rules: RS.State, inflows: W.State, plans: seq<Plan>, core: R.Core)

  const INITIAL := State(RS.INITIAL, W.INITIAL, [], R.EMPTY)

  // ----- Evaluation against the rule table

  predicate IsActiveRule(rules: RS.State, account: string, id: nat) {
    id < |rules.rules| && rules.rules[id].accountRef == account && rules.rules[id].status == RS.ACTIVE
  }

  /** SELECT the account's ACTIVE rules ORDER BY priority; ties in any order. */
  predicate IsFetch(rules: RS.State, account: string, fetch: seq<nat>) {
    && (forall i :: 0 <= i < |fetch| ==> IsActiveRule(rules, account, fetch[i]))
    && (forall i, j :: 0 <= i < j < |fetch| ==> fetch[i] != fetch[j])
    && (forall id :: 0 <= id < |rules.rules| && IsActiveRule(rules, account, id) ==> id in fetch)
    && (forall i, j :: 0 <= i < j < |fetch| ==>
          rules.rules[fetch[i]].definition.priority <= rules.rules[fetch[j]].definition.priority)
  }

  function FetchOne(rules: RS.State, id: nat): Fetched
    requires id < |rules.rules|
  {
    var r := rules.rules[id];
    Fetched(id, if r.accountRef in rules.accounts then rules.accounts[r.accountRef].businessId else "", r.definition)
  }

  function FetchedRules(rules: RS.State, fetch: seq<nat>): (fetched: seq<Fetched>)
    requires forall i :: 0 <= i < |fetch| ==> fetch[i] < |rules.rules|
    ensures |fetched| == |fetch| && forall i :: 0 <= i < |fetch| ==> fetched[i] == FetchOne(rules, fetch[i])
  {
    seq(|fetch|, i requires 0 <= i < |fetch| => FetchOne(rules, fetch[i]))
  }

  function Definitions(fetched: seq<Fetched>): (definitions: seq<RuleDefinition>)
    ensures |definitions| == |fetched| && forall i :: 0 <= i < |fetched| ==> definitions[i] == fetched[i].definition
  {
    seq(|fetched|, i requires 0 <= i < |fetched| => fetched[i].definition)
  }

  function MatchedRules(fetched: seq<Fetched>, e: Event): seq<Fetched> {
    if fetched == [] then []
    else
      var n := |fetched| - 1;
      MatchedRules(fetched[..n], e) + (if Matches(fetched[n].definition, e) then [fetched[n]] else [])
  }

  function Fired(model: ExecutionModel, fetched: seq<Fetched>, e: Event): seq<Fetched> {
    var all := MatchedRules(fetched, e);
    if model == SEQUENTIAL && all != [] then [all[0]] else all
  }

  // ----- Steps of the worker

  function SetPlan(s: State, w: nat, plan: Plan): State
    requires w < |s.plans|
  {
    s.(plans := s.plans[w := plan])
  }

  predicate Evaluates(s: State, w: nat) {
    && w < |s.inflows.workers| && w < |s.plans|
    && (s.inflows.workers[w].pc.Recorded?
        || (s.inflows.workers[w].pc.Claimed? && W.IsCustom(s.inflows.workers[w].payload)))
  }

  function EventFor(s: State, w: nat): Event
    requires Evaluates(s, w)
  {
    var p := s.inflows.workers[w].payload;
    if s.inflows.workers[w].pc.Recorded? then InflowEvent(p.amountKobo, s.inflows.workers[w].pc.cumulative)
    else CustomEventOf(p.eventType.value)
  }

  /** Run w evaluates the rules that `fetch` lists. */
  function EvaluateRules(s: State, w: nat, fetch: seq<nat>): State {
    if !Evaluates(s, w) || !IsFetch(s.rules, s.inflows.workers[w].payload.accountNumber, fetch) then s
    else
      var fired := Fired(s.plans[w].model, FetchedRules(s.rules, fetch), EventFor(s, w));
      SetPlan(s, w, s.plans[w].(matched := fired)).(inflows := W.Advance(s.inflows, w, fired != []))
  }

  function RowOf(ledger: seq<LedgerEntry>, ref: string): (i: Option<nat>)
    ensures i.Some? ==> i.value < |ledger| && ledger[i.value].transactionRef == ref
  {
    if ledger == [] then None
    else if ledger[|ledger| - 1].transactionRef == ref then Some(|ledger| - 1)
    else RowOf(ledger[..|ledger| - 1], ref)
  }

  /** Run w reads its ledger row back, once rules have matched. */
  function LoadRow(s: State, w: nat): State {
    if w >= |s.inflows.workers| || w >= |s.plans| || s.inflows.workers[w].pc != W.Evaluated(true) then s
    else
      match RowOf(s.inflows.ledger, s.inflows.workers[w].payload.transactionRef)
      case None => s
      case Some(i) =>
        var row := s.inflows.ledger[i];
        SetPlan(s, w, s.plans[w].(record := Some(Record(i, row.transactionRef, row.amountKobo))))
  }

  predicate InFirstAttempt(f: R.Flight) {
    match f
    case Idle => false
    case Acting(n, _) => n == 0
    case Decided(n, _, _) => n == 0
    case CreditDone(n) => n == 0
    case Returned => true
  }

  /** Run w is inside `execute` for one of its rules, or about to enqueue its retry. */
  predicate Busy(s: State, w: nat) {
    exists k :: 0 <= k < |s.core.executions| && s.core.executions[k].worker == w && InFirstAttempt(s.core.executions[k].flight)
  }

  predicate CanBegin(s: State, w: nat) {
    && w < |s.inflows.workers| && w < |s.plans| && s.plans[w].next < |s.plans[w].matched| && !Busy(s, w)
    && (|| (s.inflows.workers[w].pc == W.Evaluated(true) && s.plans[w].record.Some?)
        || (s.inflows.workers[w].pc == W.Done && W.IsCustom(s.inflows.workers[w].payload)))
  }

  /** What the first attempt of a matched rule works with: the rule as evaluated and the row as read back, or a
      pseudo entry of amount 0 for a custom event. */
  function FirstTask(s: State, w: nat, f: Fetched): R.Task
    requires CanBegin(s, w) && f.definition.action.ReleaseFunds?
  {
    if W.IsCustom(s.inflows.workers[w].payload)
    then R.Task(f.businessId, f.definition.action.payload, s.inflows.workers[w].payload.transactionRef, 0, false)
    else R.Task(f.businessId, f.definition.action.payload,
                s.plans[w].record.value.transactionRef, s.plans[w].record.value.amountKobo, true)
  }

  function EntryFor(s: State, w: nat): Option<nat>
    requires CanBegin(s, w)
  {
    if W.IsCustom(s.inflows.workers[w].payload) then None else Some(s.plans[w].record.value.entry)
  }

  /** Run w starts its next matched rule. Actions other than RELEASE_FUNDS move no money and are not followed here. */
  function Begin(s: State, w: nat): State {
    if !CanBegin(s, w) then s
    else
      var f := s.plans[w].matched[s.plans[w].next];
      var t := SetPlan(s, w, s.plans[w].(next := s.plans[w].next + 1));
      if !f.definition.action.ReleaseFunds? then t
      else t.(core := R.Begin(s.core, f.rule, EntryFor(s, w), s.inflows.workers[w].payload.accountNumber, w,
                              FirstTask(s, w, f)))
  }

  /** Every other step of the worker runs. */
  function Inflow(s: State, a: W.Action): State {
    match a
    case OpenAccount(_) => s
    case Deliver(_) => s.(inflows := W.After(s.inflows, a), plans := s.plans + [Plan(SEQUENTIAL, [], None, 0)])
    case Work(w, _) =>
      if w >= |s.inflows.workers| || w >= |s.plans| then s
      else
        var p, pc := s.inflows.workers[w].payload, s.inflows.workers[w].pc;
        if pc.Recorded? || pc.Claimed? || (pc.Evaluated? && (Busy(s, w) || s.plans[w].next < |s.plans[w].matched|)) then s
        else if pc.NotSeen? && p.accountNumber in s.rules.accounts
        then SetPlan(s, w, s.plans[w].(model := s.rules.accounts[p.accountNumber].model)).(inflows := W.After(s.inflows, a))
        else s.(inflows := W.After(s.inflows, a))
    case Crash(w) => if Busy(s, w) then s else s.(inflows := W.After(s.inflows, a))
    case _ => s.(inflows := W.After(s.inflows, a))
  }

  // ----- Steps of everything else

  /** The account that a step of the rule tables creates, if any. */
  function Opened(s: RS.State, a: RS.Action): Option<string> {
    if a.Work? && a.h < |s.handlers| && s.handlers[a.h].Provisioning? && a.ok && s.handlers[a.h].accountRef !in s.accounts
    then Some(s.handlers[a.h].accountRef)
    else None
  }

  function Rules(s: State, a: RS.Action): State {
    var t := s.(rules := RS.After(s.rules, a));
    match Opened(s.rules, a)
    case Some(account) => t.(inflows := W.After(s.inflows, W.OpenAccount(account)))
    case None => t
  }

  /** What a retry finds: it follows the execution's keys to the rule, its account and the ledger row. */
  function Lookup(s: State, x: R.Execution): Option<R.Task> {
    if x.entry.None? || x.entry.value >= |s.inflows.ledger| || x.rule >= |s.rules.rules| then None
    else
      var r, row := s.rules.rules[x.rule], s.inflows.ledger[x.entry.value];
      if r.accountRef !in s.rules.accounts || !r.definition.action.ReleaseFunds? then None
      else Some(R.Task(s.rules.accounts[r.accountRef].businessId, r.definition.action.payload,
                       row.transactionRef, row.amountKobo, true))
  }

  /** The step of Release that an action stands for: a retry starts from its lookup, and only a living worker
      enqueues. */
  function StepOf(s: State, a: Action): Option<R.Step> {
    match a
    case Execution(step) =>
      if step.DoStartRetry? then None
      else if step.DoEnqueue? && !(&& step.execution < |s.core.executions|
                                   && s.core.executions[step.execution].worker < |s.inflows.workers|
                                   && s.inflows.workers[s.core.executions[step.execution].worker].pc == W.Evaluated(true))
      then None
      else Some(step)
    case Retry(k) =>
      if k < |s.core.executions| then Some(R.DoStartRetry(k, Lookup(s, s.core.executions[k]))) else None
    case _ => None
  }

  datatype Action =
    | ChangeRules(rulesStep: RS.Action)
    | Worker(workerStep: W.Action)
    | DoEvaluate(worker: nat, fetch: seq<nat>)
    | DoLoadRow(worker: nat)
    | DoBegin(worker: nat)
    | Execution(step: R.Step)
    | Retry(execution: nat)

  function After(s: State, a: Action): State {
    match a
    case ChangeRules(step) => Rules(s, step)
    case Worker(step) => Inflow(s, step)
    case DoEvaluate(w, fetch) => EvaluateRules(s, w, fetch)
    case DoLoadRow(w) => LoadRow(s, w)
    case DoBegin(w) => Begin(s, w)
    case _ =>
      match StepOf(s, a)
      case Some(step) => s.(core := R.After(s.core, step))
      case None => s
  }

  function Run(s: State, actions: seq<Action>): State
    decreases |actions|
  {
    if actions == [] then s else Run(After(s, actions[0]), actions[1..])
  }

  lemma {:induction false} RunSnoc(s: State, actions: seq<Action>, a: Action)
    ensures Run(s, actions + [a]) == After(Run(s, actions), a)
    decreases |actions|
  {
    if actions == [] {
      assert Run(After(s, a), [a][1..]) == After(s, a);
      assert actions + [a] == [a];
    } else {
      assert (actions + [a])[1..] == actions[1..] + [a];
      RunSnoc(After(s, actions[0]), actions[1..], a);
    }
  }

  /** The state before action n of a run. */
  function At(actions: seq<Action>, n: nat): State
    requires n <= |actions|
  {
    Run(INITIAL, actions[..n])
  }

  lemma AtStep(actions: seq<Action>, n: nat)
    requires n < |actions|
    ensures At(actions, n + 1) == After(At(actions, n), actions[n])
  {
    RunSnoc(INITIAL, actions[..n], actions[n]);
    assert actions[..n] + [actions[n]] == actions[..n + 1];
  }
}
