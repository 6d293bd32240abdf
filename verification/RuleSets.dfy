/** Rule sets over time: the requests that create, replace, switch and flag rules, and when ARCHIVED is left. Requests
    run without a transaction: each database access is one step, and the accesses of different requests interleave. */
module RuleSets {
  import opened Wrappers
  import opened RuleEngine
  import opened Split

  datatype RuleStatus = ACTIVE | ARCHIVED | FLAGGED_FOR_REVIEW

  datatype KycTier = TIER_0 | TIER_1 | TIER_2 | TIER_3

  /** `reenabled` is history: the rule was switched on again since its customer's tier was last written. */
  datatype Rule = Rule(
    accountRef: string,
    definition: RuleDefinition,
    status: RuleStatus,
    kycTierAtCreation: KycTier,
    reenabled: bool)

  datatype Account = Account(businessId: string, customer: string, model: ExecutionModel)

  datatype Request =
    | Provision(accountRef: string, businessId: string, customer: string, model: ExecutionModel, definitions: seq<RuleDefinition>)
    | Replace(accountRef: string, newModel: Option<ExecutionModel>, definitions: seq<RuleDefinition>)
    | Toggle(accountRef: string, id: nat, enabled: bool)
    | Delete(accountRef: string, id: nat)
    | UpdateTier(customer: string, tier: KycTier)

  /** A request between two accesses, with what it has read so far. */
  datatype Handler =
    | Arrived(request: Request)
    | Provisioning(accountRef: string, businessId: string, customer: string, model: ExecutionModel,
                   definitions: seq<RuleDefinition>, tier: KycTier)     // customer read; Nomba and the insert follow
    | Replacing(accountRef: string, customer: string, model: ExecutionModel,
                definitions: seq<RuleDefinition>)                       // account read, rule set accepted
    | Archiving(accountRef: string, model: ExecutionModel, definitions: seq<RuleDefinition>, tier: KycTier)
    | Creating(accountRef: string, model: ExecutionModel, definitions: seq<RuleDefinition>, tier: KycTier)
    | Switching(id: nat, enabled: bool)                                 // rule read, guards passed
    | Selecting(customer: string, tier: KycTier)                        // tier written
    | Flagging(customer: string, ids: set<nat>)                         // stale rules found
    | Finished

  /** Rule ids are positions: rows are never removed. */
  datatype State = State(
    customers: map<string, KycTier>,
    accounts: map<string, Account>,
    rules: seq<Rule>,
    handlers: seq<Handler>)

  const INITIAL := State(map[], map[], [], [])

  // ----- What single accesses do

  function CreateRules(accountRef: string, definitions: seq<RuleDefinition>, tier: KycTier): (rules: seq<Rule>)
    ensures |rules| == |definitions|
    ensures forall i :: 0 <= i < |rules| ==> rules[i] == Rule(accountRef, definitions[i], ACTIVE, tier, false)
  {
    seq(|definitions|, i requires 0 <= i < |definitions| => Rule(accountRef, definitions[i], ACTIVE, tier, false))
  }

  function Archived(r: Rule, accountRef: string): Rule {
    if r.accountRef == accountRef && r.status == ACTIVE then r.(status := ARCHIVED) else r
  }

  /** UPDATE rules SET status = ARCHIVED WHERE account and status = ACTIVE */
  function ArchiveActive(rules: seq<Rule>, accountRef: string): (archived: seq<Rule>)
    ensures |archived| == |rules|
    ensures forall i :: 0 <= i < |rules| ==> archived[i] == Archived(rules[i], accountRef)
  {
    seq(|rules|, i requires 0 <= i < |rules| => Archived(rules[i], accountRef))
  }

  function Flagged(r: Rule, flag: bool): Rule {
    if flag then r.(status := FLAGGED_FOR_REVIEW) else r
  }

  /** UPDATE rules SET status = FLAGGED_FOR_REVIEW WHERE id IN ids: no condition on the status. */
  function FlagAll(rules: seq<Rule>, ids: set<nat>): (flagged: seq<Rule>)
    ensures |flagged| == |rules|
    ensures forall i :: 0 <= i < |rules| ==> flagged[i] == Flagged(rules[i], i in ids)
  {
    seq(|rules|, i requires 0 <= i < |rules| => Flagged(rules[i], i in ids))
  }

  predicate OwnedBy(s: State, r: Rule, customer: string) {
    r.accountRef in s.accounts && s.accounts[r.accountRef].customer == customer
  }

  function Forgotten(s: State, r: Rule, customer: string): Rule {
    if OwnedBy(s, r, customer) then r.(reenabled := false) else r
  }

  /** A new tier starts a new history of re-enabling; no column changes. */
  function ForgetReenabling(s: State, customer: string): (rules: seq<Rule>)
    ensures |rules| == |s.rules|
    ensures forall i :: 0 <= i < |rules| ==> rules[i] == Forgotten(s, s.rules[i], customer)
  {
    seq(|s.rules|, i requires 0 <= i < |s.rules| => Forgotten(s, s.rules[i], customer))
  }

  predicate Stale(s: State, r: Rule, customer: string, tier: KycTier) {
    r.status == ACTIVE && r.kycTierAtCreation != tier && OwnedBy(s, r, customer)
  }

  function StaleIds(s: State, customer: string, tier: KycTier): set<nat> {
    set i: nat | i < |s.rules| && Stale(s, s.rules[i], customer, tier)
  }

  function TierOf(s: State, customer: string): KycTier {
    if customer in s.customers then s.customers[customer] else TIER_0
  }

  predicate OnAccount(s: State, accountRef: string, id: nat) {
    id < |s.rules| && s.rules[id].accountRef == accountRef
  }

  // ----- Steps

  /** The first read of a request and the guards on it. Account creation validates its rule set but never adds up
      the percentages; a lookup that finds nothing ends the request. */
  function FirstRead(s: State, q: Request): Handler {
    match q
    case Provision(ref, business, customer, model, definitions) =>
      if !ValidRuleSet(definitions) || ref in s.accounts || customer !in s.customers then Finished
      else Provisioning(ref, business, customer, model, definitions, s.customers[customer])
    case Replace(ref, model, definitions) =>
      if ref !in s.accounts || !ValidRuleSet(definitions) then Finished
      else
        var newModel := if model.Some? then model.value else s.accounts[ref].model;
        if newModel == PARALLEL && TotalPercentage(definitions) > 100 then Finished
        else Replacing(ref, s.accounts[ref].customer, newModel, definitions)
    case Toggle(ref, id, enabled) =>
      if !OnAccount(s, ref, id) || (enabled && s.rules[id].status != FLAGGED_FOR_REVIEW) then Finished
      else Switching(id, enabled)
    case Delete(ref, id) => if OnAccount(s, ref, id) then Switching(id, false) else Finished
    case UpdateTier(customer, tier) => if customer in s.customers then Selecting(customer, tier) else Finished
  }

  function Goto(s: State, h: nat, next: Handler): State
    requires h < |s.handlers|
  {
    s.(handlers := s.handlers[h := next])
  }

  /** The new status is written by id, without looking again. */
  function Switched(r: Rule, enabled: bool): Rule {
    if enabled then r.(status := ACTIVE, reenabled := true) else r.(status := ARCHIVED)
  }

  /** The next access of request h. `ok`: whether Nomba provisions the virtual account, where it is asked. */
  function Advance(s: State, h: nat, ok: bool): State
    requires h < |s.handlers|
  {
    match s.handlers[h]
    case Arrived(q) =>
      var next := FirstRead(s, q);
      if next.Selecting?
      then Goto(s, h, next).(customers := s.customers[next.customer := next.tier],
                             rules := ForgetReenabling(s, next.customer))
      else Goto(s, h, next)
    case Provisioning(ref, business, customer, model, definitions, tier) =>
      if !ok || ref in s.accounts then Goto(s, h, Finished)
      else Goto(s, h, Finished).(accounts := s.accounts[ref := Account(business, customer, model)],
                                 rules := s.rules + CreateRules(ref, definitions, tier))
    case Replacing(ref, customer, model, definitions) =>
      Goto(s, h, Archiving(ref, model, definitions, TierOf(s, customer)))
    case Archiving(ref, model, definitions, tier) =>
      Goto(s, h, Creating(ref, model, definitions, tier)).(rules := ArchiveActive(s.rules, ref))
    case Creating(ref, model, definitions, tier) =>
      if ref !in s.accounts then Goto(s, h, Finished)
      else Goto(s, h, Finished).(accounts := s.accounts[ref := s.accounts[ref].(model := model)],
                                 rules := s.rules + CreateRules(ref, definitions, tier))
    case Switching(id, enabled) =>
      if id >= |s.rules| then Goto(s, h, Finished)
      else Goto(s, h, Finished).(rules := s.rules[id := Switched(s.rules[id], enabled)])
    case Selecting(customer, tier) => Goto(s, h, Flagging(customer, StaleIds(s, customer, tier)))
    case Flagging(_, ids) => Goto(s, h, Finished).(rules := FlagAll(s.rules, ids))
    case Finished => s
  }

  datatype Action =
    | CreateCustomer(customer: string, hasBvn: bool)
    | Arrive(request: Request)
    | Work(h: nat, ok: bool)
    | Crash(h: nat)

  function After(s: State, a: Action): State {
    match a
    case CreateCustomer(customer, hasBvn) =>
      if customer in s.customers then s
      else s.(customers := s.customers[customer := if hasBvn then TIER_1 else TIER_0])
    case Arrive(q) => s.(handlers := s.handlers + [Arrived(q)])
    case Work(h, ok) => if h < |s.handlers| then Advance(s, h, ok) else s
    case Crash(h) => if h < |s.handlers| then Goto(s, h, Finished) else s
  }

  function Run(s: State, actions: seq<Action>): State
    decreases |actions|
  {
    if actions == [] then s else Run(After(s, actions[0]), actions[1..])
  }

  lemma {:induction false} RunSnoc(s: State, actions: seq<Action>, a: Action)
    ensures Run(s, actions + [a]) == After(Run(s, actions), a)
    decreases |actions|
  {
    if actions == [] {
      assert Run(After(s, a), [a][1..]) == After(s, a);
      assert actions + [a] == [a];
    } else {
      assert (actions + [a])[1..] == actions[1..] + [a];
      RunSnoc(After(s, actions[0]), actions[1..], a);
    }
  }

  /** The state before action n of a run. */
  function At(actions: seq<Action>, n: nat): State
    requires n <= |actions|
  {
    Run(INITIAL, actions[..n])
  }

  lemma AtStep(actions: seq<Action>, n: nat)
    requires n < |actions|
    ensures At(actions, n + 1) == After(At(actions, n), actions[n])
  {
    RunSnoc(INITIAL, actions[..n], actions[n]);
    assert actions[..n] + [actions[n]] == actions[..n + 1];
  }

  // ----- What a rule does never changes

  ghost predicate Extends(s: State, t: State) {
    && |s.rules| <= |t.rules|
    && (forall i :: 0 <= i < |s.rules| ==>
          && t.rules[i].accountRef == s.rules[i].accountRef
          && t.rules[i].definition == s.rules[i].definition
          && t.rules[i].kycTierAtCreation == s.rules[i].kycTierAtCreation)
    && (forall b :: b in s.accounts ==>
          && b in t.accounts
          && t.accounts[b].businessId == s.accounts[b].businessId && t.accounts[b].customer == s.accounts[b].customer)
    && (forall c :: c in s.customers ==> c in t.customers)
  }

  /** Requests move one at a time. */
  lemma OthersStay(s: State, a: Action, h: nat)
    ensures |s.handlers| <= |After(s, a).handlers| <= |s.handlers| + 1
    ensures h < |s.handlers| && !((a.Work? || a.Crash?) && a.h == h) ==> After(s, a).handlers[h] == s.handlers[h]
    ensures h == |s.handlers| < |After(s, a).handlers| ==> After(s, a).handlers[h].Arrived?
  {
  }

  lemma RulesExtend(s: State, a: Action)
    ensures |s.rules| <= |After(s, a).rules|
    ensures forall i :: 0 <= i < |s.rules| ==>
      && After(s, a).rules[i].accountRef == s.rules[i].accountRef
      && After(s, a).rules[i].definition == s.rules[i].definition
      && After(s, a).rules[i].kycTierAtCreation == s.rules[i].kycTierAtCreation
  {
    if a.Work? && a.h < |s.handlers| {
      match s.handlers[a.h]
      case Arrived(_) =>
      case Provisioning(_, _, _, _, _, _) =>
      case Archiving(_, _, _, _) =>
      case Creating(_, _, _, _) =>
      case Switching(_, _) =>
      case Flagging(_, _) =>
      case _ =>
    }
  }

  lemma AccountsExtend(s: State, a: Action)
    ensures forall b :: b in s.accounts ==>
      && b in After(s, a).accounts
      && After(s, a).accounts[b].businessId == s.accounts[b].businessId
      && After(s, a).accounts[b].customer == s.accounts[b].customer
    ensures forall c :: c in s.customers ==> c in After(s, a).customers
  {
  }

  lemma StepExtends(s: State, a: Action)
    ensures Extends(s, After(s, a))
  {
    RulesExtend(s, a);
    AccountsExtend(s, a);
  }

  /** Definitions, tier snapshots and owners are fixed; no row disappears. */
  lemma {:induction false} DefinitionsForever(actions: seq<Action>, n: nat, m: nat)
    requires n <= m <= |actions|
    ensures Extends(At(actions, n), At(actions, m))
    decreases m
  {
    if n == m {
    } else {
      DefinitionsForever(actions, n, m - 1);
      AtStep(actions, m - 1);
      StepExtends(At(actions, m - 1), actions[m - 1]);
    }
  }

  // ----- When ARCHIVED is left

  /** The request is about to write a status other than ARCHIVED to rule r. */
  predicate Holds(f: Handler, r: nat) {
    || (f.Switching? && f.enabled && f.id == r)
    || (f.Flagging? && r in f.ids)
  }

  predicate HoldsAt(s: State, h: nat, r: nat) {
    h < |s.handlers| && Holds(s.handlers[h], r)
  }

  /** At step p request h reads rule r, not ARCHIVED then, and decides to write it. */
  ghost predicate TakenAt(actions: seq<Action>, p: nat, h: nat, r: nat) {
    && p < |actions| && actions[p].Work? && actions[p].h == h
    && r < |At(actions, p).rules| && At(actions, p).rules[r].status != ARCHIVED
    && !HoldsAt(At(actions, p), h, r) && HoldsAt(At(actions, p + 1), h, r)
  }

  ghost predicate IsArchived(s: State, r: nat) {
    r < |s.rules| && s.rules[r].status == ARCHIVED
  }

  ghost predicate ArchivedAt(actions: seq<Action>, q: nat, r: nat) {
    && q < |actions| && r < |At(actions, q).rules|
    && !IsArchived(At(actions, q), r) && IsArchived(At(actions, q + 1), r)
  }

  /** A request took rule r at p, the rule was archived at q, and the request writes it at n all the same. */
  ghost predicate StaleRevival(actions: seq<Action>, h: nat, p: nat, q: nat, n: nat, r: nat) {
    && p < q < n < |actions|
    && TakenAt(actions, p, h, r) && ArchivedAt(actions, q, r)
    && actions[n].Work? && actions[n].h == h && HoldsAt(At(actions, n), h, r) && IsArchived(At(actions, n), r)
  }

  lemma NewlyHeld(s: State, a: Action, h: nat, r: nat)
    requires HoldsAt(After(s, a), h, r) && !HoldsAt(s, h, r)
    ensures a.Work? && a.h == h && r < |s.rules| && s.rules[r].status != ARCHIVED
    ensures After(s, a).rules == s.rules
  {
    assert a.Work?;
    assert s.handlers[h].Arrived? || s.handlers[h].Selecting?;
  }

  lemma {:induction false} TakenBefore(actions: seq<Action>, n: nat, h: nat, r: nat) returns (p: nat)
    requires n <= |actions| && HoldsAt(At(actions, n), h, r)
    ensures p < n && TakenAt(actions, p, h, r)
    decreases n
  {
    var m := n - 1;
    AtStep(actions, m);
    if HoldsAt(At(actions, m), h, r) {
      p := TakenBefore(actions, m, h, r);
    } else {
      NewlyHeld(At(actions, m), actions[m], h, r);
      p := m;
    }
  }

  lemma {:induction false} ArchivedBetween(actions: seq<Action>, p: nat, n: nat, r: nat) returns (q: nat)
    requires p <= n <= |actions| && r < |At(actions, p).rules|
    requires !IsArchived(At(actions, p), r) && IsArchived(At(actions, n), r)
    ensures p <= q < n && ArchivedAt(actions, q, r)
    decreases n
  {
    DefinitionsForever(actions, p, n - 1);
    if IsArchived(At(actions, n - 1), r) {
      q := ArchivedBetween(actions, p, n - 1, r);
    } else {
      q := n - 1;
    }
  }

  lemma ArchivedWritten(s: State, a: Action, r: nat)
    requires IsArchived(s, r)
    ensures !IsArchived(After(s, a), r) <==> a.Work? && HoldsAt(s, a.h, r)
  {
    if a.Work? && a.h < |s.handlers| {
      match s.handlers[a.h]
      case Arrived(_) =>
      case Provisioning(_, _, _, _, _, _) =>
      case Replacing(_, _, _, _) =>
      case Archiving(_, _, _, _) =>
      case Creating(_, _, _, _) =>
      case Switching(_, _) =>
      case Selecting(_, _) =>
      case Flagging(_, _) =>
      case Finished =>
    }
  }

  /** In every run, at every step: ARCHIVED is left exactly when a request that took the rule before it was
      archived writes it now. */
  lemma ArchivedLeftExactlyWhen(actions: seq<Action>, n: nat, r: nat)
    requires n < |actions| && IsArchived(At(actions, n), r)
    ensures !IsArchived(At(actions, n + 1), r) <==>
      exists h: nat, p: nat, q: nat :: StaleRevival(actions, h, p, q, n, r)
  {
    AtStep(actions, n);
    ArchivedWritten(At(actions, n), actions[n], r);
    if !IsArchived(At(actions, n + 1), r) {
      var h := actions[n].h;
      var p := TakenBefore(actions, n, h, r);
      var q := ArchivedBetween(actions, p, n, r);
      AtStep(actions, p);
      NewlyHeld(At(actions, p), actions[p], h, r);
      assert p != q;
      assert StaleRevival(actions, h, p, q, n, r);
    }
  }

  ghost predicate ArchivedKept(actions: seq<Action>) {
    forall n: nat, m: nat, r: nat :: n <= m <= |actions| && IsArchived(At(actions, n), r) ==> IsArchived(At(actions, m), r)
  }

  ghost predicate NoStaleRevival(actions: seq<Action>) {
    forall h: nat, p: nat, q: nat, n: nat, r: nat :: !StaleRevival(actions, h, p, q, n, r)
  }

  lemma {:induction false} ArchivedKeptFrom(actions: seq<Action>, n: nat, m: nat, r: nat)
    requires NoStaleRevival(actions) && n <= m <= |actions| && IsArchived(At(actions, n), r)
    ensures IsArchived(At(actions, m), r)
    decreases m
  {
    if n == m {
    } else {
      ArchivedKeptFrom(actions, n, m - 1, r);
      ArchivedLeftExactlyWhen(actions, m - 1, r);
    }
  }

  /** Over whole runs, both ways: ARCHIVED is never left exactly when no request writes a rule that was archived
      after the request had read it. */
  lemma ArchivedForeverExactlyWhen(actions: seq<Action>)
    ensures ArchivedKept(actions) <==> NoStaleRevival(actions)
  {
    if NoStaleRevival(actions) {
      forall n: nat, m: nat, r: nat | n <= m <= |actions| && IsArchived(At(actions, n), r)
        ensures IsArchived(At(actions, m), r)
      {
        ArchivedKeptFrom(actions, n, m, r);
      }
    }
    if ArchivedKept(actions) && !NoStaleRevival(actions) {
      var h: nat, p: nat, q: nat, n: nat, r: nat :| StaleRevival(actions, h, p, q, n, r);
      ArchivedLeftExactlyWhen(actions, n, r);
      assert false;
    }
  }
}
