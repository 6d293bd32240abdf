/** Rule matching and evaluation: what a condition means, and what the SEQUENTIAL and PARALLEL
    loops return. */
module RuleEngine {
  import opened Wrappers

  datatype InflowCondition = InflowCondition(
    amountGte: Option<int>,
    amountLte: Option<int>,
    amountLt: Option<int>,
    amountEq: Option<int>,
    cumulativeGte: Option<int>)

  datatype Trigger =
    | InflowReceived(condition: InflowCondition)
    | CustomEvent(eventName: string)
    | TimeElapsed
    | TierChanged

  /** At most one of percentage and amount is given; both may be missing. */
  datatype ReleasePayload = ReleasePayload(
    destinationAccountRef: string,
    percentage: Option<nat>,
    amountKobo: Option<nat>)

  datatype RuleAction =
    | SuspendAccount
    | ReactivateAccount
    | ExpireAccount
    | FlagForReview
    | NotifyWebhook(url: string)
    | ReleaseFunds(payload: ReleasePayload)

  datatype RuleDefinition = RuleDefinition(trigger: Trigger, action: RuleAction, priority: nat)

  datatype ExecutionModel = SEQUENTIAL | PARALLEL

  datatype Event = Event(amountKobo: nat, cumulativeKobo: nat, eventType: string, eventName: Option<string>)

  const NOMBA_INFLOW := "NOMBA_INFLOW"

  function InflowEvent(amount: nat, cumulative: nat): Event {
    Event(amount, cumulative, NOMBA_INFLOW, None)
  }

  /** A custom event is evaluated with amount 0 and cumulative amount 0. */
  function CustomEventOf(name: string): Event {
    Event(0, 0, name, Some(name))
  }

  // ----- The schema

  predicate Positive(bound: Option<int>) {
    bound.Some? ==> bound.value >= 1
  }

  predicate ValidCondition(c: InflowCondition) {
    && Positive(c.amountGte) && Positive(c.amountLte) && Positive(c.amountLt)
    && Positive(c.amountEq) && Positive(c.cumulativeGte)
    && (c.amountGte.Some? || c.amountLte.Some? || c.amountLt.Some? || c.amountEq.Some? || c.cumulativeGte.Some?)
  }

  predicate ValidRelease(p: ReleasePayload) {
    && p.destinationAccountRef != ""
    && (p.percentage.Some? ==> 1 <= p.percentage.value <= 100)
    && (p.amountKobo.Some? ==> p.amountKobo.value >= 1)
    && !(p.percentage.Some? && p.amountKobo.Some?)
  }

  predicate ValidRule(r: RuleDefinition) {
    && (r.trigger.InflowReceived? ==> ValidCondition(r.trigger.condition))
    && (r.trigger.CustomEvent? ==> r.trigger.eventName != "")
    && (r.action.ReleaseFunds? ==> ValidRelease(r.action.payload))
    && r.priority <= 1000
  }

  predicate ValidRuleSet(rules: seq<RuleDefinition>) {
    rules != [] && forall i :: 0 <= i < |rules| ==> ValidRule(rules[i])
  }

  // ----- Matching

  predicate MatchesInflow(c: InflowCondition, amount: int, cumulative: int) {
    if c.amountGte.Some? && amount < c.amountGte.value then false
    else if c.amountLte.Some? && amount > c.amountLte.value then false
    else if c.amountLt.Some? && amount >= c.amountLt.value then false
    else if c.amountEq.Some? && amount != c.amountEq.value then false
    else if c.cumulativeGte.Some? && cumulative < c.cumulativeGte.value then false
    else true
  }

  predicate Matches(r: RuleDefinition, e: Event) {
    match r.trigger
    case InflowReceived(c) => MatchesInflow(c, e.amountKobo, e.cumulativeKobo)
    case CustomEvent(name) =>
      if e.eventType == NOMBA_INFLOW then false
      else if name == "" || e.eventName.None? || e.eventName.value == "" then false
      else name == e.eventName.value
    case TimeElapsed => false
    case TierChanged => false
  }

  /** An amount interval, possibly empty or open above, and a lower bound on the cumulative amount. */
  datatype Range = Range(lo: int, hi: Option<int>, cumulativeLo: int)

  predicate InRange(r: Range, amount: int, cumulative: int) {
    r.lo <= amount && (r.hi.Some? ==> amount <= r.hi.value) && r.cumulativeLo <= cumulative
  }

  function AtLeast(lo: int, bound: Option<int>): int {
    if bound.Some? && bound.value > lo then bound.value else lo
  }

  function AtMost(hi: Option<int>, bound: Option<int>): Option<int> {
    if bound.None? then hi
    else if hi.Some? && hi.value < bound.value then hi
    else bound
  }

  function RangeOf(c: InflowCondition): Range {
    var below := if c.amountLt.Some? then Some(c.amountLt.value - 1) else None;
    Range(AtLeast(AtLeast(0, c.amountGte), c.amountEq),
          AtMost(AtMost(AtMost(None, c.amountLte), below), c.amountEq),
          AtLeast(0, c.cumulativeGte))
  }

  /** Every valid condition means one range; some inflow meets it exactly when the interval is not empty. */
  lemma ConditionIsRange(c: InflowCondition)
    requires ValidCondition(c)
    ensures forall amount: nat, cumulative: nat ::
      MatchesInflow(c, amount, cumulative) <==> InRange(RangeOf(c), amount, cumulative)
    ensures (exists amount: nat, cumulative: nat :: MatchesInflow(c, amount, cumulative))
            <==> (RangeOf(c).hi.Some? ==> RangeOf(c).lo <= RangeOf(c).hi.value)
  {
    var r := RangeOf(c);
    if r.hi.Some? ==> r.lo <= r.hi.value {
      assert MatchesInflow(c, r.lo, r.cumulativeLo);
    }
  }

  /** A custom event fires an inflow rule exactly when the rule has upper bounds and nothing else. */
  lemma CustomEventFiresInflowRule(r: RuleDefinition, name: string)
    requires ValidRule(r) && r.trigger.InflowReceived?
    ensures Matches(r, CustomEventOf(name)) <==>
      var c := r.trigger.condition;
      c.amountGte.None? && c.amountEq.None? && c.cumulativeGte.None? && (c.amountLte.Some? || c.amountLt.Some?)
  {
  }

  predicate OnlyCumulative(c: InflowCondition) {
    c.cumulativeGte.Some? && c.amountGte.None? && c.amountLte.None? && c.amountLt.None? && c.amountEq.None?
  }

  // ----- The evaluation loop

  function Matching(rules: seq<RuleDefinition>, e: Event): seq<RuleDefinition> {
    if rules == [] then []
    else
      var n := |rules| - 1;
      Matching(rules[..n], e) + (if Matches(rules[n], e) then [rules[n]] else [])
  }

  function FirstOnly(rules: seq<RuleDefinition>): seq<RuleDefinition> {
    if rules == [] then [] else [rules[0]]
  }

  lemma MatchingSnoc(rules: seq<RuleDefinition>, n: nat, e: Event)
    requires n < |rules|
    ensures Matching(rules[..n + 1], e) == Matching(rules[..n], e) + (if Matches(rules[n], e) then [rules[n]] else [])
  {
    assert rules[..n + 1][..n] == rules[..n];
  }

  lemma {:induction false} FirstMatchStays(rules: seq<RuleDefinition>, n: nat, e: Event)
    requires n <= |rules| && Matching(rules[..n], e) != []
    ensures Matching(rules, e) != [] && Matching(rules, e)[0] == Matching(rules[..n], e)[0]
    decreases |rules| - n
  {
    if n == |rules| {
      assert rules[..n] == rules;
    } else {
      MatchingSnoc(rules, n, e);
      FirstMatchStays(rules, n + 1, e);
    }
  }

  /** PARALLEL returns the order-preserving filter, SEQUENTIAL its first element or nothing. */
  method Evaluate(rules: seq<RuleDefinition>, model: ExecutionModel, e: Event) returns (matching: seq<RuleDefinition>)
    ensures model == PARALLEL ==> matching == Matching(rules, e)
    ensures model == SEQUENTIAL ==> matching == FirstOnly(Matching(rules, e))
  {
    matching := [];
    assert rules[..0] == [];
    for i := 0 to |rules|
      invariant matching == Matching(rules[..i], e)
      invariant model == SEQUENTIAL ==> matching == []
    {
      MatchingSnoc(rules, i, e);
      if !Matches(rules[i], e) {
        continue;
      }
      matching := matching + [rules[i]];
      if model == SEQUENTIAL {
        FirstMatchStays(rules, i + 1, e);
        return;
      }
    }
    assert rules[..|rules|] == rules;
  }

  // ----- What the loop returns, said without the loop

  ghost predicate SortedByPriority(rules: seq<RuleDefinition>) {
    forall i, j :: 0 <= i < j < |rules| ==> rules[i].priority <= rules[j].priority
  }

  /** The filter keeps exactly the matching rules, each as often as it occurs. */
  lemma {:induction false} MatchingCounts(rules: seq<RuleDefinition>, e: Event, r: RuleDefinition)
    ensures multiset(Matching(rules, e))[r] == if Matches(r, e) then multiset(rules)[r] else 0
    decreases |rules|
  {
    if rules == [] {
    } else {
      var n := |rules| - 1;
      MatchingCounts(rules[..n], e, r);
      assert rules == rules[..n] + [rules[n]];
    }
  }

  lemma {:induction false} MatchingSorted(rules: seq<RuleDefinition>, e: Event)
    requires SortedByPriority(rules)
    ensures SortedByPriority(Matching(rules, e))
    ensures forall r :: r in Matching(rules, e) ==> r in rules && Matches(r, e)
    ensures forall r :: r in rules && Matches(r, e) ==> r in Matching(rules, e)
    decreases |rules|
  {
    if rules == [] {
    } else {
      var n := |rules| - 1;
      var before := Matching(rules[..n], e);
      MatchingSorted(rules[..n], e);
      assert rules == rules[..n] + [rules[n]];
      forall i | 0 <= i < |before| ensures before[i].priority <= rules[n].priority {
        assert before[i] in rules[..n];
      }
    }
  }

  lemma SequentialFiresMinimal(rules: seq<RuleDefinition>, e: Event)
    requires SortedByPriority(rules)
    ensures var one := FirstOnly(Matching(rules, e));
      && (one == [] <==> forall r :: r in rules ==> !Matches(r, e))
      && (one != [] ==>
            && one[0] in rules && Matches(one[0], e)
            && forall r :: r in rules && Matches(r, e) ==> one[0].priority <= r.priority)
  {
    var all := Matching(rules, e);
    MatchingSorted(rules, e);
    if all != [] {
      assert all[0] in all;
    }
    forall r | r in rules && Matches(r, e) ensures all != [] && all[0].priority <= r.priority {
      assert r in all;
    }
  }

  /** For any priority-sorted fetch of the ACTIVE rules, however ties are ordered: SEQUENTIAL fires at most
      one rule, it fires one exactly when some rule matches, and that rule has minimal priority among all
      that match; PARALLEL fires every matching rule, each exactly as often as it is stored. */
  lemma EvaluationAgainstTable(active: multiset<RuleDefinition>, rules: seq<RuleDefinition>, e: Event)
    requires multiset(rules) == active && SortedByPriority(rules)
    ensures var one := FirstOnly(Matching(rules, e));
      && (one == [] <==> forall r :: r in active ==> !Matches(r, e))
      && (one != [] ==>
            && one[0] in active && Matches(one[0], e)
            && forall r :: r in active && Matches(r, e) ==> one[0].priority <= r.priority)
    ensures forall r :: multiset(Matching(rules, e))[r] == if Matches(r, e) then active[r] else 0
  {
    forall r ensures multiset(Matching(rules, e))[r] == if Matches(r, e) then active[r] else 0 {
      MatchingCounts(rules, e, r);
    }
    SequentialFiresMinimal(rules, e);
    assert forall r :: r in rules <==> r in active;
  }
}
