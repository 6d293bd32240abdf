/** Concrete runs in which interleaved requests break what each of them checks. */
module RuleSetRuns {
  import opened Wrappers
  import opened RuleEngine
  import opened Split
  import opened RuleSets
  import opened RuleBounds
  import opened KycReview

  const SIXTY := RuleDefinition(
    InflowReceived(InflowCondition(Some(1), None, None, None, None)),
    ReleaseFunds(ReleasePayload("tax", Some(60), None)), 0)

  lemma SixtyIsValid()
    ensures ValidRuleSet([SIXTY]) && ValidRuleSet([SIXTY, SIXTY])
    ensures TotalPercentage([SIXTY]) == 60 && TotalPercentage([SIXTY, SIXTY]) == 120
  {
    SharesOfOneAndTwo(SIXTY);
    assert ValidRule(SIXTY);
  }

  lemma SharesOfOneAndTwo(r: RuleDefinition)
    ensures TotalPercentage([r]) == Percentage(r) && TotalPercentage([r, r]) == 2 * Percentage(r)
  {
    TotalPercentageSnoc([], r);
    TotalPercentageSnoc([r], r);
    assert [] + [r] == [r] && [r] + [r] == [r, r];
  }

  lemma TwoRulesShare(r: Rule, q: Rule)
    ensures ActivePercentage([r, q], "acc") == ActiveShare(r, "acc") + ActiveShare(q, "acc")
  {
    assert [r, q][..1] == [r] && [r][..0] == [];
    assert ActivePercentage([r], "acc") == ActiveShare(r, "acc");
  }

  function Sixty(status: RuleStatus, tier: KycTier, reenabled: bool): Rule {
    Rule("acc", SIXTY, status, tier, reenabled)
  }

  // ----- A PARALLEL account of a TIER_0 customer with one 60% rule

  const SETUP: seq<Action> := [
    CreateCustomer("ada", false), Arrive(Provision("acc", "biz", "ada", PARALLEL, [SIXTY])), Work(0, true), Work(0, true)]

  const ACCOUNTS: map<string, Account> := map["acc" := Account("biz", "ada", PARALLEL)]

  lemma SetupReaches(rest: seq<Action>)
    ensures At(SETUP + rest, 4) == State(map["ada" := TIER_0], ACCOUNTS, [Sixty(ACTIVE, TIER_0, false)], [Finished])
  {
    var run := SETUP + rest;
    SixtyIsValid();
    AtStep(run, 0);
    AtStep(run, 1);
    AtStep(run, 2);
    assert At(run, 3) == State(map["ada" := TIER_0], map[], [],
                               [Provisioning("acc", "biz", "ada", PARALLEL, [SIXTY], TIER_0)]);
    AtStep(run, 3);
    assert CreateRules("acc", [SIXTY], TIER_0) == [Sixty(ACTIVE, TIER_0, false)];
  }

  // ----- ARCHIVED is left

  const REVIVAL_BY_TIER_UPDATE: seq<Action> := SETUP + [
    Arrive(UpdateTier("ada", TIER_1)), Work(1, true), Work(1, true),
    Arrive(Delete("acc", 0)), Work(2, true), Work(2, true),
    Work(1, true)]

  /** A rule deleted between the search and the flagging of a tier update becomes FLAGGED_FOR_REVIEW. */
  lemma TierUpdateRevivesArchived()
    ensures IsArchived(At(REVIVAL_BY_TIER_UPDATE, 10), 0)
    ensures At(REVIVAL_BY_TIER_UPDATE, 11).rules == [Sixty(FLAGGED_FOR_REVIEW, TIER_0, false)]
  {
    var run := REVIVAL_BY_TIER_UPDATE;
    SetupReaches(run[4..]);
    assert run == SETUP + run[4..];
    TierUpdateFinds(run, TIER_1);
    AtStep(run, 7);
    AtStep(run, 8);
    assert At(run, 9) == State(map["ada" := TIER_1], ACCOUNTS, [Sixty(ACTIVE, TIER_0, false)],
                               [Finished, Flagging("ada", {0}), Switching(0, false)]);
    AtStep(run, 9);
    assert At(run, 10).rules == [Sixty(ARCHIVED, TIER_0, false)];
    AtStep(run, 10);
  }

  /** A tier update straight after the setup, up to its search. */
  lemma TierUpdateFinds(run: seq<Action>, tier: KycTier)
    requires |run| >= 7 && run == SETUP + run[4..] && tier != TIER_0
    requires run[4..7] == [Arrive(UpdateTier("ada", tier)), Work(1, true), Work(1, true)]
    ensures At(run, 7) == State(map["ada" := tier], ACCOUNTS, [Sixty(ACTIVE, TIER_0, false)], [Finished, Flagging("ada", {0})])
  {
    SetupReaches(run[4..]);
    assert run[4] == run[4..7][0] && run[5] == run[4..7][1] && run[6] == run[4..7][2];
    AtStep(run, 4);
    AtStep(run, 5);
    var s := State(map["ada" := tier], ACCOUNTS, [Sixty(ACTIVE, TIER_0, false)], [Finished, Selecting("ada", tier)]);
    assert At(run, 6) == s;
    AtStep(run, 6);
    assert StaleIds(s, "ada", tier) == {0};
  }

  const REVIVAL_BY_TOGGLE: seq<Action> := SETUP + [
    Arrive(UpdateTier("ada", TIER_1)), Work(1, true), Work(1, true), Work(1, true),
    Arrive(Toggle("acc", 0, true)), Work(2, true),
    Arrive(Delete("acc", 0)), Work(3, true), Work(3, true),
    Work(2, true)]

  lemma ToggleChecks()
    ensures At(REVIVAL_BY_TOGGLE, 10)
         == State(map["ada" := TIER_1], ACCOUNTS, [Sixty(FLAGGED_FOR_REVIEW, TIER_0, false)],
                  [Finished, Finished, Switching(0, true)])
  {
    var run := REVIVAL_BY_TOGGLE;
    assert run == SETUP + run[4..];
    TierUpdateFlags(run);
    AtStep(run, 8);
    AtStep(run, 9);
  }

  /** A rule deleted between the check and the write of a toggle becomes ACTIVE. */
  lemma ToggleRevivesArchived()
    ensures IsArchived(At(REVIVAL_BY_TOGGLE, 13), 0)
    ensures At(REVIVAL_BY_TOGGLE, 14).rules == [Sixty(ACTIVE, TIER_0, true)]
  {
    var run := REVIVAL_BY_TOGGLE;
    ToggleChecks();
    AtStep(run, 10);
    AtStep(run, 11);
    assert At(run, 12).handlers == [Finished, Finished, Switching(0, true), Switching(0, false)];
    AtStep(run, 12);
    assert At(run, 13) == State(map["ada" := TIER_1], ACCOUNTS, [Sixty(ARCHIVED, TIER_0, false)],
                                [Finished, Finished, Switching(0, true), Finished]);
    AtStep(run, 13);
  }

  lemma TierUpdateFlags(run: seq<Action>)
    requires |run| >= 8 && run == SETUP + run[4..]
    requires run[4..8] == [Arrive(UpdateTier("ada", TIER_1)), Work(1, true), Work(1, true), Work(1, true)]
    ensures At(run, 8) == State(map["ada" := TIER_1], ACCOUNTS, [Sixty(FLAGGED_FOR_REVIEW, TIER_0, false)], [Finished, Finished])
  {
    assert run[4..7] == run[4..8][..3];
    TierUpdateFinds(run, TIER_1);
    assert run[7] == run[4..8][3];
    AtStep(run, 7);
  }

  // ----- KYC staleness

  const STALE_REPLACEMENT: seq<Action> := SETUP + [
    Arrive(UpdateTier("ada", TIER_1)), Arrive(Replace("acc", None, [SIXTY])), Work(2, true), Work(2, true),
    Work(1, true), Work(1, true), Work(1, true), Work(2, true), Work(2, true)]

  lemma TierUpdateOvertakes()
    ensures At(STALE_REPLACEMENT, 11)
         == State(map["ada" := TIER_1], ACCOUNTS, [Sixty(FLAGGED_FOR_REVIEW, TIER_0, false)],
                  [Finished, Finished, Archiving("acc", PARALLEL, [SIXTY], TIER_0)])
  {
    var run := STALE_REPLACEMENT;
    ReplacementReads();
    AtStep(run, 8);
    var s := State(map["ada" := TIER_1], ACCOUNTS, [Sixty(ACTIVE, TIER_0, false)],
                   [Finished, Selecting("ada", TIER_1), Archiving("acc", PARALLEL, [SIXTY], TIER_0)]);
    assert At(run, 9) == s;
    assert StaleIds(s, "ada", TIER_1) == {0};
    AtStep(run, 9);
    assert At(run, 10) == s.(handlers := [Finished, Flagging("ada", {0}), Archiving("acc", PARALLEL, [SIXTY], TIER_0)]);
    AtStep(run, 10);
  }

  lemma ReplacementReads()
    ensures At(STALE_REPLACEMENT, 8)
         == State(map["ada" := TIER_0], ACCOUNTS, [Sixty(ACTIVE, TIER_0, false)],
                  [Finished, Arrived(UpdateTier("ada", TIER_1)), Archiving("acc", PARALLEL, [SIXTY], TIER_0)])
  {
    var run := STALE_REPLACEMENT;
    SetupReaches(run[4..]);
    assert run == SETUP + run[4..];
    SixtyIsValid();
    AtStep(run, 4);
    AtStep(run, 5);
    AtStep(run, 6);
    assert At(run, 7).handlers[2] == Replacing("acc", "ada", PARALLEL, [SIXTY]);
    AtStep(run, 7);
  }

  /** A whole tier update between the tier read and the insert of a replacement: the new rule carries the old tier,
      is ACTIVE, and nothing is left that would flag it. */
  lemma ReplacementEscapesReview()
    ensures var t := At(STALE_REPLACEMENT, 13);
      && t.customers == map["ada" := TIER_1] && (forall h: nat :: !UnderWay(t, h))
      && t.rules == [Sixty(FLAGGED_FOR_REVIEW, TIER_0, false), Sixty(ACTIVE, TIER_0, false)] && Outdated(t, 1)
  {
    var run := STALE_REPLACEMENT;
    TierUpdateOvertakes();
    AtStep(run, 11);
    assert At(run, 12) == State(map["ada" := TIER_1], ACCOUNTS, [Sixty(FLAGGED_FOR_REVIEW, TIER_0, false)],
                                [Finished, Finished, Creating("acc", PARALLEL, [SIXTY], TIER_0)]);
    AtStep(run, 12);
    assert CreateRules("acc", [SIXTY], TIER_0) == [Sixty(ACTIVE, TIER_0, false)];
  }

  const STALE_PROVISIONING: seq<Action> := [
    CreateCustomer("ada", false), Arrive(Provision("acc", "biz", "ada", PARALLEL, [SIXTY])), Work(0, true),
    Arrive(UpdateTier("ada", TIER_1)), Work(1, true), Work(1, true), Work(1, true),
    Work(0, true)]

  /** The same gap around the Nomba call of account creation. */
  lemma ProvisioningEscapesReview()
    ensures var t := At(STALE_PROVISIONING, 8);
      && t.customers == map["ada" := TIER_1] && (forall h: nat :: !UnderWay(t, h))
      && t.rules == [Sixty(ACTIVE, TIER_0, false)] && Outdated(t, 0)
  {
    var run := STALE_PROVISIONING;
    SixtyIsValid();
    AtStep(run, 0);
    AtStep(run, 1);
    AtStep(run, 2);
    AtStep(run, 3);
    var f := Provisioning("acc", "biz", "ada", PARALLEL, [SIXTY], TIER_0);
    assert At(run, 4) == State(map["ada" := TIER_0], map[], [], [f, Arrived(UpdateTier("ada", TIER_1))]);
    AtStep(run, 4);
    assert At(run, 5) == State(map["ada" := TIER_1], map[], [], [f, Selecting("ada", TIER_1)]);
    assert StaleIds(At(run, 5), "ada", TIER_1) == {};
    AtStep(run, 5);
    assert At(run, 6) == State(map["ada" := TIER_1], map[], [], [f, Flagging("ada", {})]);
    AtStep(run, 6);
    assert At(run, 7) == State(map["ada" := TIER_1], map[], [], [f, Finished]);
    AtStep(run, 7);
    assert CreateRules("acc", [SIXTY], TIER_0) == [Sixty(ACTIVE, TIER_0, false)];
  }

  // ----- The 100% bound

  const OVER_PROVISIONED: seq<Action> := [
    CreateCustomer("ada", false), Arrive(Provision("acc", "biz", "ada", PARALLEL, [SIXTY, SIXTY])), Work(0, true), Work(0, true)]

  /** Account creation accepts a PARALLEL rule set of 120%. */
  lemma ProvisioningCanExceed()
    ensures At(OVER_PROVISIONED, 4).accounts == ACCOUNTS
    ensures ActivePercentage(At(OVER_PROVISIONED, 4).rules, "acc") == 120
  {
    var run := OVER_PROVISIONED;
    SixtyIsValid();
    AtStep(run, 0);
    AtStep(run, 1);
    AtStep(run, 2);
    assert At(run, 3) == State(map["ada" := TIER_0], map[], [],
                               [Provisioning("acc", "biz", "ada", PARALLEL, [SIXTY, SIXTY], TIER_0)]);
    AtStep(run, 3);
    ShareAfterCreating([], "acc", [SIXTY, SIXTY], TIER_0, "acc");
  }

  const TWO_REPLACEMENTS: seq<Action> := SETUP + [
    Arrive(Replace("acc", None, [SIXTY])), Arrive(Replace("acc", None, [SIXTY])),
    Work(1, true), Work(1, true), Work(1, true), Work(2, true), Work(2, true), Work(2, true),
    Work(1, true), Work(2, true)]

  /** Two replacements of 60% each, both checked, archive before either inserts: 120% ACTIVE on a PARALLEL account. */
  lemma ConcurrentReplacementsExceed()
    ensures At(TWO_REPLACEMENTS, 14).accounts == ACCOUNTS
    ensures ActivePercentage(At(TWO_REPLACEMENTS, 14).rules, "acc") == 120
  {
    var run := TWO_REPLACEMENTS;
    SetupReaches(run[4..]);
    assert run == SETUP + run[4..];
    SixtyIsValid();
    var arrived := Arrived(Replace("acc", None, [SIXTY]));
    AtStep(run, 4);
    AtStep(run, 5);
    assert At(run, 6).handlers == [Finished, arrived, arrived];
    AtStep(run, 6);
    AtStep(run, 7);
    assert At(run, 8) == State(map["ada" := TIER_0], ACCOUNTS, [Sixty(ACTIVE, TIER_0, false)],
                               [Finished, Archiving("acc", PARALLEL, [SIXTY], TIER_0), arrived]);
    AtStep(run, 8);
    AtStep(run, 9);
    AtStep(run, 10);
    var archived := [Sixty(ARCHIVED, TIER_0, false)];
    assert At(run, 11) == State(map["ada" := TIER_0], ACCOUNTS, archived,
      [Finished, Creating("acc", PARALLEL, [SIXTY], TIER_0), Archiving("acc", PARALLEL, [SIXTY], TIER_0)]);
    AtStep(run, 11);
    assert At(run, 12).rules == archived;
    TwoInserts(run, archived);
  }

  lemma TwoInserts(run: seq<Action>, archived: seq<Rule>)
    requires |run| >= 14 && run[12] == Work(1, true) && run[13] == Work(2, true)
    requires var f := Creating("acc", PARALLEL, [SIXTY], TIER_0);
      At(run, 12) == State(map["ada" := TIER_0], ACCOUNTS, archived, [Finished, f, f])
    requires ActivePercentage(archived, "acc") == 0
    ensures At(run, 14).accounts == ACCOUNTS && ActivePercentage(At(run, 14).rules, "acc") == 120
  {
    SixtyIsValid();
    var f, inserted := Creating("acc", PARALLEL, [SIXTY], TIER_0), CreateRules("acc", [SIXTY], TIER_0);
    assert ACCOUNTS["acc" := ACCOUNTS["acc"].(model := PARALLEL)] == ACCOUNTS;
    AtStep(run, 12);
    assert At(run, 13) == State(map["ada" := TIER_0], ACCOUNTS, archived + inserted, [Finished, Finished, f]);
    AtStep(run, 13);
    assert At(run, 14) == State(map["ada" := TIER_0], ACCOUNTS, archived + inserted + inserted, [Finished, Finished, Finished]);
    ShareAfterCreating(archived, "acc", [SIXTY], TIER_0, "acc");
    ShareAfterCreating(archived + inserted, "acc", [SIXTY], TIER_0, "acc");
  }

  const FLAGGED_THEN_REENABLED: seq<Action> := SETUP + [
    Arrive(UpdateTier("ada", TIER_1)), Work(1, true), Work(1, true), Work(1, true),
    Arrive(Replace("acc", None, [SIXTY])), Work(2, true), Work(2, true), Work(2, true), Work(2, true),
    Arrive(Toggle("acc", 0, true)), Work(3, true), Work(3, true)]

  /** Flag, replace, re-enable, one request after the other: 120% ACTIVE although every replacement was checked. */
  lemma FlagReplaceReenable()
    ensures At(FLAGGED_THEN_REENABLED, 16).accounts == ACCOUNTS
    ensures ActivePercentage(At(FLAGGED_THEN_REENABLED, 16).rules, "acc") == 120
  {
    var run := FLAGGED_THEN_REENABLED;
    assert run == SETUP + run[4..];
    TierUpdateFlags(run);
    SixtyIsValid();
    AtStep(run, 8);
    AtStep(run, 9);
    AtStep(run, 10);
    assert At(run, 11) == State(map["ada" := TIER_1], ACCOUNTS, [Sixty(FLAGGED_FOR_REVIEW, TIER_0, false)],
                                [Finished, Finished, Archiving("acc", PARALLEL, [SIXTY], TIER_1)]);
    AtStep(run, 11);
    AtStep(run, 12);
    assert CreateRules("acc", [SIXTY], TIER_1) == [Sixty(ACTIVE, TIER_1, false)];
    assert At(run, 13) == State(map["ada" := TIER_1], ACCOUNTS,
      [Sixty(FLAGGED_FOR_REVIEW, TIER_0, false), Sixty(ACTIVE, TIER_1, false)], [Finished, Finished, Finished]);
    AtStep(run, 13);
    AtStep(run, 14);
    AtStep(run, 15);
    assert At(run, 16).rules == [Sixty(ACTIVE, TIER_0, true), Sixty(ACTIVE, TIER_1, false)];
    TwoRulesShare(Sixty(ACTIVE, TIER_0, true), Sixty(ACTIVE, TIER_1, false));
  }
}
