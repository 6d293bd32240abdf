/** Splitting an inflow: the amount a RELEASE_FUNDS rule credits, and the 100% bound. */
module Split {
  import opened Wrappers
  import opened RuleEngine

  /** round(percentage * 100) * amount / 10000, in integers; a percentage is a whole number. */
  function PercentageOf(percentage: nat, amount: nat): nat {
    (percentage * 100 * amount) / 10000
  }

  /** The credit, or None when the payload names neither a percentage nor an amount. */
  function CreditAmount(p: ReleasePayload, inflow: nat): Option<nat> {
    if p.percentage.Some? then Some(PercentageOf(p.percentage.value, inflow))
    else p.amountKobo
  }

  /** A validated release is of one of three kinds: a whole percentage from 1 to 100, a fixed amount of at least one
      kobo, or neither, never both; and it names a destination. */
  lemma ReleaseKinds(p: ReleasePayload)
    ensures ValidRelease(p) <==>
      && p.destinationAccountRef != ""
      && match (p.percentage, p.amountKobo)
         case (Some(percentage), None) => 1 <= percentage <= 100
         case (None, Some(amount)) => amount != 0
         case (None, None) => true
         case (Some(_), Some(_)) => false
  {
  }

  function Percentage(r: RuleDefinition): nat {
    if r.action.ReleaseFunds? && r.action.payload.percentage.Some? then r.action.payload.percentage.value else 0
  }

  function TotalPercentage(rules: seq<RuleDefinition>): nat {
    if rules == [] then 0
    else TotalPercentage(rules[..|rules| - 1]) + Percentage(rules[|rules| - 1])
  }

  /** Accepts a rule list exactly when its RELEASE_FUNDS percentages add up to at most 100. */
  method EnforcePercentageSum(rules: seq<RuleDefinition>) returns (accepted: bool)
    ensures accepted <==> TotalPercentage(rules) <= 100
  {
    var totalPercentage := 0;
    assert rules[..0] == [];
    for i := 0 to |rules|
      invariant totalPercentage == TotalPercentage(rules[..i])
    {
      assert rules[..i + 1][..i] == rules[..i];
      if rules[i].action.ReleaseFunds? && rules[i].action.payload.percentage.Some? {
        totalPercentage := totalPercentage + rules[i].action.payload.percentage.value;
      }
    }
    assert rules[..|rules|] == rules;
    accepted := totalPercentage <= 100;
  }

  lemma PercentageIsFloor(percentage: nat, amount: nat)
    ensures PercentageOf(percentage, amount) == (percentage * amount) / 100
    ensures 100 * PercentageOf(percentage, amount) <= percentage * amount < 100 * PercentageOf(percentage, amount) + 100
  {
    var product := percentage * amount;
    assert percentage * 100 * amount == 100 * product;
  }

  /** Kobo credited by one rule for one inflow. */
  function CreditOf(r: RuleDefinition, inflow: nat): nat {
    if r.action.ReleaseFunds? && CreditAmount(r.action.payload, inflow).Some?
    then CreditAmount(r.action.payload, inflow).value else 0
  }

  function TotalCredit(rules: seq<RuleDefinition>, inflow: nat): nat {
    if rules == [] then 0
    else TotalCredit(rules[..|rules| - 1], inflow) + CreditOf(rules[|rules| - 1], inflow)
  }

  ghost predicate AllPercentages(rules: seq<RuleDefinition>) {
    forall i :: 0 <= i < |rules| ==> rules[i].action.ReleaseFunds? ==> rules[i].action.payload.amountKobo.None?
  }

  /** Each floor loses less than one kobo. */
  lemma {:induction false} CreditsAgainstShare(rules: seq<RuleDefinition>, inflow: nat)
    requires AllPercentages(rules)
    ensures 100 * TotalCredit(rules, inflow) <= TotalPercentage(rules) * inflow
    ensures TotalPercentage(rules) * inflow <= 100 * TotalCredit(rules, inflow) + 99 * |rules|
    decreases |rules|
  {
    if rules == [] {
    } else {
      var n := |rules| - 1;
      CreditsAgainstShare(rules[..n], inflow);
      var p := Percentage(rules[n]);
      PercentageIsFloor(p, inflow);
      assert CreditOf(rules[n], inflow) == PercentageOf(p, inflow);
      assert (TotalPercentage(rules[..n]) + p) * inflow == TotalPercentage(rules[..n]) * inflow + p * inflow;
    }
  }

  /** A sublist keeps the rules whose flag is set. */
  function Sublist(rules: seq<RuleDefinition>, keep: seq<bool>): seq<RuleDefinition>
    requires |keep| == |rules|
  {
    if rules == [] then []
    else
      var n := |rules| - 1;
      Sublist(rules[..n], keep[..n]) + (if keep[n] then [rules[n]] else [])
  }

  lemma TotalPercentageSnoc(rules: seq<RuleDefinition>, r: RuleDefinition)
    ensures TotalPercentage(rules + [r]) == TotalPercentage(rules) + Percentage(r)
  {
    assert (rules + [r])[..|rules|] == rules;
  }

  lemma {:induction false} SublistShare(rules: seq<RuleDefinition>, keep: seq<bool>)
    requires |keep| == |rules|
    ensures TotalPercentage(Sublist(rules, keep)) <= TotalPercentage(rules)
    ensures AllPercentages(rules) ==> AllPercentages(Sublist(rules, keep))
    decreases |rules|
  {
    if rules == [] {
    } else {
      var n := |rules| - 1;
      SublistShare(rules[..n], keep[..n]);
      var before := Sublist(rules[..n], keep[..n]);
      TotalPercentageSnoc(before, rules[n]);
      assert before + [] == before;
    }
  }

  function MatchFlags(rules: seq<RuleDefinition>, e: Event): (keep: seq<bool>)
    ensures |keep| == |rules|
  {
    seq(|rules|, i requires 0 <= i < |rules| => Matches(rules[i], e))
  }

  lemma {:induction false} MatchingIsSublist(rules: seq<RuleDefinition>, e: Event)
    ensures Matching(rules, e) == Sublist(rules, MatchFlags(rules, e))
    decreases |rules|
  {
    if rules == [] {
    } else {
      var n := |rules| - 1;
      MatchingIsSublist(rules[..n], e);
      assert MatchFlags(rules, e)[..n] == MatchFlags(rules[..n], e);
    }
  }

  /** An accepted all-percentage list never allocates more than the inflow, whichever of its rules fire. */
  lemma SplitBound(rules: seq<RuleDefinition>, keep: seq<bool>, inflow: nat)
    requires |keep| == |rules| && AllPercentages(rules) && TotalPercentage(rules) <= 100
    ensures TotalCredit(Sublist(rules, keep), inflow) <= inflow
  {
    var fired := Sublist(rules, keep);
    SublistShare(rules, keep);
    CreditsAgainstShare(fired, inflow);
    ShareBound(TotalPercentage(fired), inflow);
  }

  lemma ShareBound(share: nat, inflow: nat)
    requires share <= 100
    ensures share * inflow <= 100 * inflow
  {
  }

  lemma {:induction false} CreditsOfHundred(rules: seq<RuleDefinition>)
    requires AllPercentages(rules)
    ensures TotalCredit(rules, 100) == TotalPercentage(rules)
    decreases |rules|
  {
    if rules == [] {
    } else {
      CreditsOfHundred(rules[..|rules| - 1]);
    }
  }

  lemma {:induction false} AllKept(rules: seq<RuleDefinition>)
    ensures Sublist(rules, seq(|rules|, _ => true)) == rules
    decreases |rules|
  {
    if rules == [] {
    } else {
      var n := |rules| - 1;
      AllKept(rules[..n]);
      assert seq(|rules|, _ => true)[..n] == seq(n, _ => true);
    }
  }

  /** For an all-percentage list the 100% bound is not only enough but needed: whichever rules fire stay within every
      inflow exactly when the percentages add up to at most 100. */
  lemma SplitBoundExactlyWhen(rules: seq<RuleDefinition>)
    requires AllPercentages(rules)
    ensures (forall keep: seq<bool>, inflow: nat :: |keep| == |rules| ==> TotalCredit(Sublist(rules, keep), inflow) <= inflow)
            <==> TotalPercentage(rules) <= 100
  {
    if TotalPercentage(rules) <= 100 {
      forall keep: seq<bool>, inflow: nat | |keep| == |rules| ensures TotalCredit(Sublist(rules, keep), inflow) <= inflow {
        SplitBound(rules, keep, inflow);
      }
    } else {
      var all := seq(|rules|, _ => true);
      AllKept(rules);
      CreditsOfHundred(rules);
      assert |all| == |rules| && TotalCredit(Sublist(rules, all), 100) > 100;
    }
  }

  /** The rules that PARALLEL evaluation fires for an event of this amount are such a sublist. */
  lemma FiredRulesStayWithinInflow(rules: seq<RuleDefinition>, e: Event)
    requires AllPercentages(rules) && TotalPercentage(rules) <= 100
    ensures TotalCredit(Matching(rules, e), e.amountKobo) <= e.amountKobo
  {
    MatchingIsSublist(rules, e);
    SplitBound(rules, MatchFlags(rules, e), e.amountKobo);
  }

  /** When the percentages make 100 and every rule fires, less than one kobo per rule stays unallocated. */
  lemma RemainderBound(rules: seq<RuleDefinition>, inflow: nat)
    requires AllPercentages(rules) && TotalPercentage(rules) == 100
    ensures 0 <= inflow - TotalCredit(rules, inflow) < |rules|
  {
    CreditsAgainstShare(rules, inflow);
  }
}
