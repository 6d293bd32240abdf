/** The rules and identity services over mutable tables: one undisturbed request each, statement by statement.
    Every method is a run of the interleaving machine in RuleSets. */
module RuleStore {
  import opened Wrappers
  import opened RuleEngine
  import opened Split
  import opened RuleSets
  import opened RuleBounds

  datatype Error = NotFound | Duplicate | InvalidRuleSet | PercentageSumExceeds100 | RuleConflict | NombaError

  // ----- What rows look like afterwards, said without the functions that write them

  /** The account's ACTIVE rules are ARCHIVED; every other old row is as before. */
  ghost predicate OnlyArchives(before: seq<Rule>, after: seq<Rule>, accountRef: string) {
    && |before| <= |after|
    && forall i :: 0 <= i < |before| ==>
         after[i] == if before[i].accountRef == accountRef && before[i].status == ACTIVE
                     then before[i].(status := ARCHIVED) else before[i]
  }

  /** From row n on there is one new ACTIVE rule per definition, in order. */
  ghost predicate EndsWith(after: seq<Rule>, n: nat, accountRef: string, definitions: seq<RuleDefinition>, tier: KycTier) {
    && |after| == n + |definitions|
    && forall i :: 0 <= i < |definitions| ==> after[n + i] == Rule(accountRef, definitions[i], ACTIVE, tier, false)
  }

  class Store {
    var customers: map<string, KycTier>
    var accounts: map<string, Account>
    var rules: seq<Rule>
    var handlers: seq<Handler>

    function Now(): State
      reads this
    {
      State(customers, accounts, rules, handlers)
    }

    constructor ()
      ensures Now() == INITIAL
    {
      customers, accounts, rules, handlers := map[], map[], [], [];
    }

    /** A customer with a BVN starts at TIER_1, any other at TIER_0. */
    method CreateCustomer(customer: string, hasBvn: bool) returns (r: Result<KycTier, Error>)
      modifies this`customers
      ensures Now() == After(old(Now()), RuleSets.CreateCustomer(customer, hasBvn))
      ensures r == if customer in old(customers) then Err(Duplicate) else if hasBvn then Ok(TIER_1) else Ok(TIER_0)
      ensures customers == if r.Ok? then old(customers)[customer := r.value] else old(customers)
    {
      if customer in customers {
        return Err(Duplicate);
      }
      var derivedTier := if hasBvn then TIER_1 else TIER_0;
      customers := customers[customer := derivedTier];
      return Ok(derivedTier);
    }

    /** Validates the rule set without adding up percentages; the account and its rules appear together, once Nomba
        has provisioned the virtual account. */
    method ProvisionAccount(accountRef: string, businessId: string, customer: string, model: ExecutionModel,
                            definitions: seq<RuleDefinition>, nombaProvisions: bool)
      returns (r: Result<(), Error>, ghost trace: seq<Action>)
      modifies this`accounts, this`rules, this`handlers
      ensures Now() == Run(old(Now()), trace) && handlers == old(handlers) + [Finished]
      ensures r.Ok? <==>
        ValidRuleSet(definitions) && accountRef !in old(accounts) && customer in customers && nombaProvisions
      ensures r == Err(InvalidRuleSet) <==> !ValidRuleSet(definitions)
      ensures r == Err(Duplicate) <==> ValidRuleSet(definitions) && accountRef in old(accounts)
      ensures r.Err? ==> accounts == old(accounts) && rules == old(rules)
      ensures r.Ok? ==>
        && accounts == old(accounts)[accountRef := Account(businessId, customer, model)]
        && |old(rules)| <= |rules| && rules[..|old(rules)|] == old(rules)
        && EndsWith(rules, |old(rules)|, accountRef, definitions, customers[customer])
    {
      ghost var s := Now();
      ghost var q := Provision(accountRef, businessId, customer, model, definitions);
      FirstStep(s, q);
      trace := Steps(q, |handlers|, 1);
      handlers := handlers + [Finished];
      if !ValidRuleSet(definitions) {
        return Err(InvalidRuleSet), trace;
      }
      if accountRef in accounts {
        return Err(Duplicate), trace;
      }
      if customer !in customers {
        return Err(NotFound), trace;
      }
      var tier := customers[customer];
      ProvisionRun(s, q, nombaProvisions);
      trace := Steps(q, |s.handlers|, 1) + [Work(|s.handlers|, nombaProvisions)];
      if !nombaProvisions {
        return Err(NombaError), trace;
      }
      CreatedRows(rules, accountRef, definitions, tier);
      accounts := accounts[accountRef := Account(businessId, customer, model)];
      rules := rules + CreateRules(accountRef, definitions, tier);
      return Ok(()), trace;
    }

    /** Refused with the first guard that fails, and then nothing changes; otherwise the ACTIVE rules are archived,
        the model is set and the new rules are created under the customer's tier. A PARALLEL set above 100% is
        refused. */
    method ReplaceRuleSet(accountRef: string, model: Option<ExecutionModel>, definitions: seq<RuleDefinition>)
      returns (r: Result<ExecutionModel, Error>, ghost trace: seq<Action>)
      modifies this`accounts, this`rules, this`handlers
      ensures Now() == Run(old(Now()), trace) && handlers == old(handlers) + [Finished]
      ensures r.Err? ==> accounts == old(accounts) && rules == old(rules)
      ensures r == Err(NotFound) <==> accountRef !in old(accounts)
      ensures r == Err(InvalidRuleSet) <==> accountRef in old(accounts) && !ValidRuleSet(definitions)
      ensures r.Ok? ==>
        && accountRef in old(accounts)
        && r.value == (if model.Some? then model.value else old(accounts)[accountRef].model)
        && accounts == old(accounts)[accountRef := old(accounts)[accountRef].(model := r.value)]
        && OnlyArchives(old(rules), rules, accountRef)
        && var customer := old(accounts)[accountRef].customer;
           EndsWith(rules, |old(rules)|, accountRef, definitions, if customer in customers then customers[customer] else TIER_0)
      ensures r.Ok? ==> ActivePercentage(rules, accountRef) == TotalPercentage(definitions)
      ensures r == Ok(PARALLEL) ==> ActivePercentage(rules, accountRef) <= 100
      ensures r == Err(PercentageSumExceeds100) <==>
        && accountRef in old(accounts) && ValidRuleSet(definitions) && TotalPercentage(definitions) > 100
        && (if model.Some? then model.value else old(accounts)[accountRef].model) == PARALLEL
    {
      ghost var s := Now();
      ghost var q := Replace(accountRef, model, definitions);
      FirstStep(s, q);
      trace := Steps(q, |handlers|, 1);
      handlers := handlers + [Finished];
      if accountRef !in accounts {
        return Err(NotFound), trace;
      }
      if !ValidRuleSet(definitions) {
        return Err(InvalidRuleSet), trace;
      }
      var account := accounts[accountRef];
      var executionModel := if model.Some? then model.value else account.model;
      if executionModel == PARALLEL {
        var accepted := EnforcePercentageSum(definitions);
        if !accepted {
          return Err(PercentageSumExceeds100), trace;
        }
      }
      ReplacementRun(s, q);
      trace := Steps(q, |s.handlers|, 4);
      WriteReplacement(accountRef, executionModel, definitions);
      return Ok(executionModel), trace;
    }

    /** The statements of an accepted replacement: read the tier, archive, then set the model and create the rules. */
    method WriteReplacement(accountRef: string, executionModel: ExecutionModel, definitions: seq<RuleDefinition>)
      requires accountRef in accounts
      modifies this`accounts, this`rules
      ensures var account := old(accounts)[accountRef];
              var tier := if account.customer in customers then customers[account.customer] else TIER_0;
        && accounts == old(accounts)[accountRef := account.(model := executionModel)]
        && rules == ArchiveActive(old(rules), accountRef) + CreateRules(accountRef, definitions, tier)
        && OnlyArchives(old(rules), rules, accountRef)
        && EndsWith(rules, |old(rules)|, accountRef, definitions, tier)
        && ActivePercentage(rules, accountRef) == TotalPercentage(definitions)
    {
      var account := accounts[accountRef];
      var tier := TierOf(Now(), account.customer);
      ReplacedShare(rules, accountRef, definitions, tier);
      ReplacedRows(rules, accountRef, definitions, tier);
      rules := ArchiveActive(rules, accountRef);
      accounts := accounts[accountRef := account.(model := executionModel)];
      rules := rules + CreateRules(accountRef, definitions, tier);
    }

    /** Switches on only a flagged rule; switching off archives. */
    method ToggleRule(accountRef: string, id: nat, enabled: bool)
      returns (r: Result<RuleStatus, Error>, ghost trace: seq<Action>)
      modifies this`rules, this`handlers
      ensures Now() == Run(old(Now()), trace) && handlers == old(handlers) + [Finished]
      ensures r == Err(NotFound) <==> !OnAccount(old(Now()), accountRef, id)
      ensures r == Err(RuleConflict) <==>
        OnAccount(old(Now()), accountRef, id) && enabled && old(rules)[id].status != FLAGGED_FOR_REVIEW
      ensures r.Err? ==> rules == old(rules)
      ensures r.Ok? ==> id < |old(rules)| && |rules| == |old(rules)|
                        && r.value == rules[id].status == (if enabled then ACTIVE else ARCHIVED)
                        && rules == old(rules)[id := old(rules)[id].(status := r.value, reenabled := rules[id].reenabled)]
    {
      ghost var s := Now();
      ghost var q := Toggle(accountRef, id, enabled);
      FirstStep(s, q);
      trace := Steps(q, |handlers|, 1);
      handlers := handlers + [Finished];
      if id >= |rules| || rules[id].accountRef != accountRef {
        return Err(NotFound), trace;
      }
      if enabled && rules[id].status != FLAGGED_FOR_REVIEW {
        return Err(RuleConflict), trace;
      }
      SwitchRun(s, q);
      trace := Steps(q, |s.handlers|, 2);
      if enabled {
        rules := rules[id := rules[id].(status := ACTIVE, reenabled := true)];
        return Ok(ACTIVE), trace;
      }
      rules := rules[id := rules[id].(status := ARCHIVED)];
      return Ok(ARCHIVED), trace;
    }

    /** Archives a rule of the account whatever its status. */
    method DeleteRule(accountRef: string, id: nat) returns (r: Result<RuleStatus, Error>, ghost trace: seq<Action>)
      modifies this`rules, this`handlers
      ensures Now() == Run(old(Now()), trace) && handlers == old(handlers) + [Finished]
      ensures r == (if OnAccount(old(Now()), accountRef, id) then Ok(ARCHIVED) else Err(NotFound))
      ensures r.Err? ==> rules == old(rules)
      ensures r.Ok? ==> id < |old(rules)| && rules == old(rules)[id := old(rules)[id].(status := ARCHIVED)]
    {
      ghost var s := Now();
      ghost var q := Delete(accountRef, id);
      FirstStep(s, q);
      trace := Steps(q, |handlers|, 1);
      handlers := handlers + [Finished];
      if id >= |rules| || rules[id].accountRef != accountRef {
        return Err(NotFound), trace;
      }
      SwitchRun(s, q);
      trace := Steps(q, |s.handlers|, 2);
      rules := rules[id := rules[id].(status := ARCHIVED)];
      return Ok(ARCHIVED), trace;
    }

    /** Writes the tier, then searches the stale rules, then flags them; returns their ids in order. Afterwards the
        customer's ACTIVE rules are exactly those that were ACTIVE under this tier, and no other rule changed status. */
    method UpdateKycTier(customer: string, tier: KycTier) returns (r: Result<seq<nat>, Error>, ghost trace: seq<Action>)
      modifies this`customers, this`rules, this`handlers
      ensures Now() == Run(old(Now()), trace) && handlers == old(handlers) + [Finished]
      ensures r == Err(NotFound) <==> customer !in old(customers)
      ensures r.Err? ==> customers == old(customers) && rules == old(rules)
      ensures r.Ok? ==> customers == old(customers)[customer := tier] && |rules| == |old(rules)|
      ensures r.Ok? ==> forall i, j :: 0 <= i < j < |r.value| ==> r.value[i] < r.value[j]
      ensures r.Ok? ==> forall id: nat :: id in r.value <==>
        id < |rules| && old(rules)[id].status == ACTIVE && rules[id].status == FLAGGED_FOR_REVIEW
      ensures r.Ok? ==> forall i: nat :: i < |rules| ==>
        var was := old(rules)[i];
        && rules[i].accountRef == was.accountRef && rules[i].definition == was.definition
        && rules[i].status ==
             if was.status == ACTIVE && was.accountRef in accounts && accounts[was.accountRef].customer == customer
                && was.kycTierAtCreation != tier
             then FLAGGED_FOR_REVIEW else was.status
    {
      ghost var s := Now();
      ghost var q := UpdateTier(customer, tier);
      FirstStep(s, q);
      trace := Steps(q, |handlers|, 1);
      handlers := handlers + [Finished];
      if customer !in customers {
        return Err(NotFound), trace;
      }
      customers := customers[customer := tier];
      rules := ForgetReenabling(Now(), customer);
      assert rules == ForgetReenabling(s, customer);
      TierUpdateRun(s, q);
      trace := Steps(q, |s.handlers|, 3);
      var flaggedRuleIds := FindStale(customer, tier);
      var ids := set id | id in flaggedRuleIds;
      SameStaleIds(s.(rules := rules), Now(), customer, tier);
      assert ids == StaleIds(Now(), customer, tier);
      rules := FlagAll(rules, ids);
      return Ok(flaggedRuleIds), trace;
    }

    /** SELECT id of the customer's ACTIVE rules written under another tier. */
    method FindStale(customer: string, tier: KycTier) returns (ids: seq<nat>)
      ensures forall i, j :: 0 <= i < j < |ids| ==> ids[i] < ids[j]
      ensures forall id: nat :: id in ids <==> id in StaleIds(Now(), customer, tier)
    {
      ids := [];
      for i := 0 to |rules|
        invariant forall j :: 0 <= j < |ids| ==> ids[j] < i
        invariant forall j, k :: 0 <= j < k < |ids| ==> ids[j] < ids[k]
        invariant forall id: nat :: id in ids <==> id < i && Stale(Now(), rules[id], customer, tier)
      {
        if Stale(Now(), rules[i], customer, tier) {
          ids := ids + [i];
        }
      }
    }
  }

  // ----- Undisturbed requests as runs

  function Steps(q: Request, h: nat, n: nat): seq<Action> {
    if n == 0 then [Arrive(q)] else Steps(q, h, n - 1) + [Work(h, true)]
  }

  lemma StepsNext(s: State, q: Request, n: nat)
    ensures Run(s, Steps(q, |s.handlers|, n + 1)) == After(Run(s, Steps(q, |s.handlers|, n)), Work(|s.handlers|, true))
  {
    RunSnoc(s, Steps(q, |s.handlers|, n), Work(|s.handlers|, true));
  }

  /** The first read, with the tables before and after it. */
  lemma FirstStep(s: State, q: Request)
    ensures !FirstRead(s, q).Selecting? ==>
      Run(s, Steps(q, |s.handlers|, 1)) == s.(handlers := s.handlers + [FirstRead(s, q)])
    ensures FirstRead(s, q).Selecting? ==>
      Run(s, Steps(q, |s.handlers|, 1))
      == s.(customers := s.customers[FirstRead(s, q).customer := FirstRead(s, q).tier],
            rules := ForgetReenabling(s, FirstRead(s, q).customer), handlers := s.handlers + [FirstRead(s, q)])
  {
    var t := s.(handlers := s.handlers + [Arrived(q)]);
    RunSnoc(s, [], Arrive(q));
    assert [] + [Arrive(q)] == Steps(q, |s.handlers|, 0);
    StepsNext(s, q, 0);
    assert FirstRead(t, q) == FirstRead(s, q);
    assert t.handlers[|s.handlers| := FirstRead(s, q)] == s.handlers + [FirstRead(s, q)];
    if FirstRead(s, q).Selecting? {
      assert ForgetReenabling(t, FirstRead(s, q).customer) == ForgetReenabling(s, FirstRead(s, q).customer);
    }
  }

  lemma ReplacedShare(rules: seq<Rule>, accountRef: string, definitions: seq<RuleDefinition>, tier: KycTier)
    ensures ActivePercentage(ArchiveActive(rules, accountRef) + CreateRules(accountRef, definitions, tier), accountRef)
         == TotalPercentage(definitions)
  {
    ShareZero(ArchiveActive(rules, accountRef), accountRef);
    ShareAfterCreating(ArchiveActive(rules, accountRef), accountRef, definitions, tier, accountRef);
  }

  lemma ReplacedRows(rules: seq<Rule>, accountRef: string, definitions: seq<RuleDefinition>, tier: KycTier)
    ensures var after := ArchiveActive(rules, accountRef) + CreateRules(accountRef, definitions, tier);
      OnlyArchives(rules, after, accountRef) && EndsWith(after, |rules|, accountRef, definitions, tier)
  {
  }

  lemma CreatedRows(rules: seq<Rule>, accountRef: string, definitions: seq<RuleDefinition>, tier: KycTier)
    ensures var after := rules + CreateRules(accountRef, definitions, tier);
      after[..|rules|] == rules && EndsWith(after, |rules|, accountRef, definitions, tier)
  {
  }

  lemma ReplacementRun(s: State, q: Request)
    requires q.Replace? && FirstRead(s, q).Replacing?
    ensures var f := FirstRead(s, q);
      Run(s, Steps(q, |s.handlers|, 4))
      == s.(accounts := s.accounts[q.accountRef := s.accounts[q.accountRef].(model := f.model)],
            rules := ArchiveActive(s.rules, q.accountRef)
                     + CreateRules(q.accountRef, q.definitions, TierOf(s, s.accounts[q.accountRef].customer)),
            handlers := s.handlers + [Finished])
  {
    var h, f := |s.handlers|, FirstRead(s, q);
    var tier := TierOf(s, f.customer);
    FirstStep(s, q);
    StepsNext(s, q, 1);
    assert Run(s, Steps(q, h, 2)) == s.(handlers := s.handlers + [Archiving(q.accountRef, f.model, q.definitions, tier)]);
    StepsNext(s, q, 2);
    assert Run(s, Steps(q, h, 3)) == s.(rules := ArchiveActive(s.rules, q.accountRef),
                                        handlers := s.handlers + [Creating(q.accountRef, f.model, q.definitions, tier)]);
    StepsNext(s, q, 3);
  }

  lemma SameStaleIds(s: State, t: State, customer: string, tier: KycTier)
    requires t.rules == s.rules && t.accounts == s.accounts
    ensures StaleIds(t, customer, tier) == StaleIds(s, customer, tier)
  {
    assert forall i: nat :: i in StaleIds(t, customer, tier) <==> i in StaleIds(s, customer, tier);
  }

  lemma ProvisionRun(s: State, q: Request, ok: bool)
    requires q.Provision? && FirstRead(s, q).Provisioning?
    ensures Run(s, Steps(q, |s.handlers|, 1) + [Work(|s.handlers|, ok)])
         == if !ok then s.(handlers := s.handlers + [Finished])
            else s.(accounts := s.accounts[q.accountRef := Account(q.businessId, q.customer, q.model)],
                    rules := s.rules + CreateRules(q.accountRef, q.definitions, s.customers[q.customer]),
                    handlers := s.handlers + [Finished])
  {
    FirstStep(s, q);
    RunSnoc(s, Steps(q, |s.handlers|, 1), Work(|s.handlers|, ok));
    assert (s.handlers + [FirstRead(s, q)])[|s.handlers| := Finished] == s.handlers + [Finished];
  }

  lemma TierUpdateRun(s: State, q: Request)
    requires q.UpdateTier? && q.customer in s.customers
    ensures var forgotten := ForgetReenabling(s, q.customer);
      Run(s, Steps(q, |s.handlers|, 3))
      == s.(customers := s.customers[q.customer := q.tier],
            rules := FlagAll(forgotten, StaleIds(s.(rules := forgotten), q.customer, q.tier)),
            handlers := s.handlers + [Finished])
  {
    var h := |s.handlers|;
    var t := s.(customers := s.customers[q.customer := q.tier], rules := ForgetReenabling(s, q.customer));
    FirstStep(s, q);
    StepsNext(s, q, 1);
    StepsNext(s, q, 2);
    var ids := StaleIds(s.(rules := t.rules), q.customer, q.tier);
    SelectionStep(t, q.customer, q.tier);
    SameStaleIds(s.(rules := t.rules), t, q.customer, q.tier);
    FlaggingStep(t, q.customer, ids);
  }

  lemma SelectionStep(s: State, customer: string, tier: KycTier)
    ensures After(s.(handlers := s.handlers + [Selecting(customer, tier)]), Work(|s.handlers|, true))
         == s.(handlers := s.handlers + [Flagging(customer, StaleIds(s, customer, tier))])
  {
    var t := s.(handlers := s.handlers + [Selecting(customer, tier)]);
    SameStaleIds(s, t, customer, tier);
    var next := Flagging(customer, StaleIds(s, customer, tier));
    assert t.handlers[|s.handlers| := next] == s.handlers + [next];
  }

  lemma FlaggingStep(s: State, customer: string, ids: set<nat>)
    ensures After(s.(handlers := s.handlers + [Flagging(customer, ids)]), Work(|s.handlers|, true))
         == s.(rules := FlagAll(s.rules, ids), handlers := s.handlers + [Finished])
  {
    assert (s.handlers + [Flagging(customer, ids)])[|s.handlers| := Finished] == s.handlers + [Finished];
  }

  lemma SwitchRun(s: State, q: Request)
    requires FirstRead(s, q).Switching?
    ensures var f := FirstRead(s, q);
      Run(s, Steps(q, |s.handlers|, 2))
      == s.(rules := s.rules[f.id := Switched(s.rules[f.id], f.enabled)], handlers := s.handlers + [Finished])
  {
    FirstStep(s, q);
    StepsNext(s, q, 1);
  }
}
