/** From the rules to the money: what a transaction allocates, over all attempts and retries, is bounded by what
    its one evaluation planned, and that by the inflow. */
module AllocationBound {
  import opened BucketLedger
  import opened RuleEngine
  import opened Split
  import opened AccountLedger
  import RS = RuleSets
  import RB = RuleBounds
  import W = InflowWorker
  import WS = InflowSafety
  import R = Release
  import S = ReleaseSafety
  import opened Pipeline
  import opened PipelineLinks

  // ----- Everything credited comes from one plan

  function AmountFor(p: ReleasePayload, inflow: nat): nat {
    if CreditAmount(p, inflow).Some? then CreditAmount(p, inflow).value else 0
  }

  function SumOfPayloads(payloads: seq<ReleasePayload>, inflow: nat): nat {
    if payloads == [] then 0
    else SumOfPayloads(payloads[..|payloads| - 1], inflow) + AmountFor(payloads[|payloads| - 1], inflow)
  }

  lemma SumSnoc(payloads: seq<ReleasePayload>, p: ReleasePayload, inflow: nat)
    ensures SumOfPayloads(payloads + [p], inflow) == SumOfPayloads(payloads, inflow) + AmountFor(p, inflow)
  {
    assert (payloads + [p])[..|payloads|] == payloads;
  }

  /** Whatever is credited for the transaction was created by run w, for this inflow. */
  ghost predicate AllBy(executions: seq<R.Execution>, tx: string, w: nat, inflow: nat) {
    forall k :: 0 <= k < |executions| && executions[k].credited && executions[k].task.transactionRef == tx ==>
      executions[k].worker == w && executions[k].task.inflow == inflow
  }

  lemma {:induction false} CreditedWithinPayloads(executions: seq<R.Execution>, tx: string, w: nat, inflow: nat)
    requires AllBy(executions, tx, w, inflow)
    ensures S.CreditedFor(executions, tx) <= SumOfPayloads(PayloadsOf(executions, w), inflow)
    decreases |executions|
  {
    if executions == [] {
    } else {
      var n := |executions| - 1;
      CreditedWithinPayloads(executions[..n], tx, w, inflow);
      var before := PayloadsOf(executions[..n], w);
      SumSnoc(before, executions[n].task.payload, inflow);
      assert before + [] == before;
    }
  }

  lemma {:induction false} StartedWithinPlan(matched: seq<Fetched>, n: nat, inflow: nat)
    requires n <= |matched|
    ensures SumOfPayloads(Releases(matched[..n]), inflow) <= SumOfPayloads(Releases(matched), inflow)
    decreases |matched| - n
  {
    if n == |matched| {
      assert matched[..n] == matched;
    } else {
      var before := Releases(matched[..n]);
      ReleasesSnoc(matched, n);
      if matched[n].definition.action.ReleaseFunds? { SumSnoc(before, matched[n].definition.action.payload, inflow); }
      assert before + [] == before;
      StartedWithinPlan(matched, n + 1, inflow);
    }
  }

  lemma {:induction false} PlanIsTotalCredit(matched: seq<Fetched>, inflow: nat)
    ensures SumOfPayloads(Releases(matched), inflow) == TotalCredit(Definitions(matched), inflow)
    decreases |matched|
  {
    if matched == [] {
    } else {
      var n := |matched| - 1;
      PlanIsTotalCredit(matched[..n], inflow);
      assert Definitions(matched)[..n] == Definitions(matched[..n]);
      var before := Releases(matched[..n]);
      if matched[n].definition.action.ReleaseFunds? { SumSnoc(before, matched[n].definition.action.payload, inflow); }
      assert before + [] == before;
    }
  }

  /** At most one run evaluates rules for a transaction, so all its credits lead back to the writer of its row. */
  lemma CreditsByWriter(s: State, i: nat)
    requires Inv(s) && i < |s.inflows.ledger|
    ensures var row := s.inflows.ledger[i]; AllBy(s.core.executions, row.transactionRef, row.writer, row.amountKobo)
  {
    var row := s.inflows.ledger[i];
    forall k | 0 <= k < |s.core.executions| && s.core.executions[k].credited
               && s.core.executions[k].task.transactionRef == row.transactionRef
      ensures s.core.executions[k].worker == row.writer && s.core.executions[k].task.inflow == row.amountKobo
    {
      var x := s.core.executions[k];
      assert S.Sound(s.core, x) && Linked(s, x);
      assert s.inflows.ledger[x.entry.value].transactionRef == row.transactionRef;
      assert x.entry.value == i;
    }
  }

  lemma WithinPlan(s: State, i: nat)
    requires Inv(s) && i < |s.inflows.ledger|
    ensures var row := s.inflows.ledger[i];
      && row.writer < |s.plans|
      && Total(AllocatedFrom(row.transactionRef), s.core.treasury.entries)
         <= TotalCredit(Definitions(s.plans[row.writer].matched), row.amountKobo)
  {
    var row := s.inflows.ledger[i];
    var plan := s.plans[row.writer];
    CreditsByWriter(s, i);
    CreditedWithinPayloads(s.core.executions, row.transactionRef, row.writer, row.amountKobo);
    assert OnPlan(s, row.writer);
    StartedWithinPlan(plan.matched, plan.next, row.amountKobo);
    PlanIsTotalCredit(plan.matched, row.amountKobo);
    assert Total(AllocatedFrom(row.transactionRef), s.core.treasury.entries)
        == S.CreditedFor(s.core.executions, row.transactionRef);
  }

  /** In every run, whatever the rules: all that was ever credited from a transaction is at most what the rules
      matched by the one run that recorded it add up to for its amount. */
  lemma AllocatedWithinPlan(actions: seq<Action>, n: nat, i: nat)
    requires n <= |actions| && i < |At(actions, n).inflows.ledger|
    ensures var s := At(actions, n);
            var row := s.inflows.ledger[i];
      && row.writer < |s.plans|
      && Total(AllocatedFrom(row.transactionRef), s.core.treasury.entries)
         <= TotalCredit(Definitions(s.plans[row.writer].matched), row.amountKobo)
  {
    RunKeepsInv(actions, n);
    WithinPlan(At(actions, n), i);
  }

  // ----- When everything that was planned arrives

  /** Every release that run w has started and that is worth something has written its row. */
  ghost predicate AllPaid(executions: seq<R.Execution>, w: nat, inflow: nat) {
    forall k :: 0 <= k < |executions| && executions[k].worker == w && AmountFor(executions[k].task.payload, inflow) > 0 ==>
      executions[k].credited
  }

  /** What run w creates is for this transaction and this inflow. */
  ghost predicate AllFor(executions: seq<R.Execution>, tx: string, w: nat, inflow: nat) {
    forall k :: 0 <= k < |executions| && executions[k].worker == w ==>
      executions[k].task.transactionRef == tx && executions[k].task.inflow == inflow
  }

  predicate Pays(x: R.Execution, w: nat, inflow: nat) {
    x.worker == w && AmountFor(x.task.payload, inflow) > 0 ==> x.credited
  }

  lemma AllPaidSnoc(executions: seq<R.Execution>, w: nat, inflow: nat)
    requires executions != []
    ensures AllPaid(executions, w, inflow) <==>
      AllPaid(executions[..|executions| - 1], w, inflow) && Pays(executions[|executions| - 1], w, inflow)
  {
  }

  /** One execution pays its share, or less. */
  lemma OnePays(x: R.Execution, tx: string, w: nat, inflow: nat)
    requires x.credited && x.task.transactionRef == tx ==> x.worker == w && x.task.inflow == inflow
    requires x.worker == w ==> x.task.transactionRef == tx && x.task.inflow == inflow
    ensures var share := if x.worker == w then AmountFor(x.task.payload, inflow) else 0;
      S.CreditBy(x, tx) <= share && (S.CreditBy(x, tx) == share <==> Pays(x, w, inflow))
  {
  }

  lemma PayloadsSumSnoc(executions: seq<R.Execution>, w: nat, inflow: nat)
    requires executions != []
    ensures var n := |executions| - 1;
      SumOfPayloads(PayloadsOf(executions, w), inflow)
      == SumOfPayloads(PayloadsOf(executions[..n], w), inflow)
         + if executions[n].worker == w then AmountFor(executions[n].task.payload, inflow) else 0
  {
    var n := |executions| - 1;
    var before := PayloadsOf(executions[..n], w);
    SumSnoc(before, executions[n].task.payload, inflow);
    assert before + [] == before;
  }

  lemma {:induction false} CreditedMeetsPayloads(executions: seq<R.Execution>, tx: string, w: nat, inflow: nat)
    requires AllBy(executions, tx, w, inflow) && AllFor(executions, tx, w, inflow)
    ensures S.CreditedFor(executions, tx) <= SumOfPayloads(PayloadsOf(executions, w), inflow)
    ensures S.CreditedFor(executions, tx) == SumOfPayloads(PayloadsOf(executions, w), inflow) <==> AllPaid(executions, w, inflow)
    decreases |executions|
  {
    if executions == [] {
    } else {
      var n := |executions| - 1;
      CreditedMeetsPayloads(executions[..n], tx, w, inflow);
      OnePays(executions[n], tx, w, inflow);
      PayloadsSumSnoc(executions, w, inflow);
      AllPaidSnoc(executions, w, inflow);
    }
  }

  /** The matched rules that run w has not started are worth nothing. */
  ghost predicate RestWorthless(matched: seq<Fetched>, n: nat, inflow: nat) {
    forall i :: n <= i < |matched| && matched[i].definition.action.ReleaseFunds? ==>
      AmountFor(matched[i].definition.action.payload, inflow) == 0
  }

  lemma {:induction false} StartedMeetsPlan(matched: seq<Fetched>, n: nat, inflow: nat)
    requires n <= |matched|
    ensures SumOfPayloads(Releases(matched[..n]), inflow) == SumOfPayloads(Releases(matched), inflow)
            <==> RestWorthless(matched, n, inflow)
    decreases |matched| - n
  {
    if n == |matched| {
      assert matched[..n] == matched;
    } else {
      var before := Releases(matched[..n]);
      ReleasesSnoc(matched, n);
      if matched[n].definition.action.ReleaseFunds? { SumSnoc(before, matched[n].definition.action.payload, inflow); }
      assert before + [] == before;
      StartedMeetsPlan(matched, n + 1, inflow);
      StartedWithinPlan(matched, n + 1, inflow);
      assert RestWorthless(matched, n, inflow) <==>
        && RestWorthless(matched, n + 1, inflow)
        && (matched[n].definition.action.ReleaseFunds? ==> AmountFor(matched[n].definition.action.payload, inflow) == 0);
    }
  }

  /** A run that wrote a row is no custom event, and works for that row alone. */
  lemma WriterWorksForRow(s: State, i: nat)
    requires Inv(s) && i < |s.inflows.ledger|
    ensures var row := s.inflows.ledger[i]; AllFor(s.core.executions, row.transactionRef, row.writer, row.amountKobo)
  {
    var row := s.inflows.ledger[i];
    assert WS.Followed(s.inflows, i);
    forall k | 0 <= k < |s.core.executions| && s.core.executions[k].worker == row.writer
      ensures s.core.executions[k].task.transactionRef == row.transactionRef
           && s.core.executions[k].task.inflow == row.amountKobo
    {
      var x := s.core.executions[k];
      assert Linked(s, x);
      assert s.inflows.ledger[x.entry.value].transactionRef == row.transactionRef;
      assert x.entry.value == i;
    }
  }

  lemma MeetsPlan(s: State, i: nat)
    requires Inv(s) && i < |s.inflows.ledger|
    ensures var row := s.inflows.ledger[i];
      && row.writer < |s.plans|
      && (Total(AllocatedFrom(row.transactionRef), s.core.treasury.entries)
            == TotalCredit(Definitions(s.plans[row.writer].matched), row.amountKobo)
          <==> RestWorthless(s.plans[row.writer].matched, s.plans[row.writer].next, row.amountKobo)
               && AllPaid(s.core.executions, row.writer, row.amountKobo))
  {
    var row := s.inflows.ledger[i];
    var plan := s.plans[row.writer];
    CreditsByWriter(s, i);
    WriterWorksForRow(s, i);
    assert OnPlan(s, row.writer);
    CreditedWithinPayloads(s.core.executions, row.transactionRef, row.writer, row.amountKobo);
    CreditedMeetsPayloads(s.core.executions, row.transactionRef, row.writer, row.amountKobo);
    StartedWithinPlan(plan.matched, plan.next, row.amountKobo);
    StartedMeetsPlan(plan.matched, plan.next, row.amountKobo);
    PlanIsTotalCredit(plan.matched, row.amountKobo);
    assert Total(AllocatedFrom(row.transactionRef), s.core.treasury.entries)
        == S.CreditedFor(s.core.executions, row.transactionRef);
  }

  /** In every run all that was planned for a transaction has arrived if and only if every matched release that is worth
      something was started and has written its row. */
  lemma AllocatedIsPlanExactlyWhen(actions: seq<Action>, n: nat, i: nat)
    requires n <= |actions| && i < |At(actions, n).inflows.ledger|
    ensures var s := At(actions, n);
            var row := s.inflows.ledger[i];
      && row.writer < |s.plans|
      && (Total(AllocatedFrom(row.transactionRef), s.core.treasury.entries)
            == TotalCredit(Definitions(s.plans[row.writer].matched), row.amountKobo)
          <==> RestWorthless(s.plans[row.writer].matched, s.plans[row.writer].next, row.amountKobo)
               && AllPaid(s.core.executions, row.writer, row.amountKobo))
  {
    RunKeepsInv(actions, n);
    MeetsPlan(At(actions, n), i);
  }

  /** So it is when every rule was started, every release of the run COMPLETED and none was beaten to its reference. */
  lemma CompletedPlanArrives(actions: seq<Action>, n: nat, i: nat)
    requires n <= |actions| && i < |At(actions, n).inflows.ledger|
    requires var s := At(actions, n);
             var w := s.inflows.ledger[i].writer;
      && w < |s.plans| && s.plans[w].next == |s.plans[w].matched|
      && forall k: nat :: k < |s.core.executions| && s.core.executions[k].worker == w ==>
           s.core.executions[k].status == R.COMPLETED && !S.Beaten(s.core, k)
    ensures var s := At(actions, n);
            var row := s.inflows.ledger[i];
      Total(AllocatedFrom(row.transactionRef), s.core.treasury.entries)
      == TotalCredit(Definitions(s.plans[row.writer].matched), row.amountKobo)
  {
    var s := At(actions, n);
    var row := s.inflows.ledger[i];
    RunKeepsInv(actions, n);
    WriterWorksForRow(s, i);
    forall k: nat | k < |s.core.executions| && s.core.executions[k].worker == row.writer
                    && AmountFor(s.core.executions[k].task.payload, row.amountKobo) > 0
      ensures s.core.executions[k].credited
    {
      S.WroteExactlyWhen(s.core, k);
    }
    MeetsPlan(s, i);
  }

  lemma {:induction false} NothingCredited(executions: seq<R.Execution>, tx: string)
    requires forall k :: 0 <= k < |executions| && executions[k].credited ==> executions[k].task.transactionRef != tx
    ensures S.CreditedFor(executions, tx) == 0
    decreases |executions|
  {
    if executions == [] {
    } else {
      NothingCredited(executions[..|executions| - 1], tx);
    }
  }

  /** A transactionRef without a ledger row, as a custom event may carry, allocates nothing. */
  lemma NothingWithoutRow(actions: seq<Action>, n: nat, tx: string)
    requires n <= |actions| && !HasRef(At(actions, n).inflows.ledger, tx)
    ensures Total(AllocatedFrom(tx), At(actions, n).core.treasury.entries) == 0
  {
    var s := At(actions, n);
    RunKeepsInv(actions, n);
    forall k | 0 <= k < |s.core.executions| && s.core.executions[k].credited
      ensures s.core.executions[k].task.transactionRef != tx
    {
      var x := s.core.executions[k];
      assert S.Sound(s.core, x) && Linked(s, x);
      assert s.inflows.ledger[x.entry.value].transactionRef == x.task.transactionRef;
    }
    NothingCredited(s.core.executions, tx);
    assert Total(AllocatedFrom(tx), s.core.treasury.entries) == S.CreditedFor(s.core.executions, tx);
  }

  // ----- The plan is what the rule table says at the evaluation

  lemma {:induction false} MatchedDefinitions(fetched: seq<Fetched>, e: Event)
    ensures Definitions(MatchedRules(fetched, e)) == Matching(Definitions(fetched), e)
    decreases |fetched|
  {
    if fetched == [] {
    } else {
      var n := |fetched| - 1;
      MatchedDefinitions(fetched[..n], e);
      assert Definitions(fetched)[..n] == Definitions(fetched[..n]);
    }
  }

  /** The plan is exactly what the evaluation loop returns for the fetched rules. */
  lemma FiredIsEvaluation(model: ExecutionModel, fetched: seq<Fetched>, e: Event)
    ensures Definitions(Fired(model, fetched, e))
         == if model == PARALLEL then Matching(Definitions(fetched), e) else FirstOnly(Matching(Definitions(fetched), e))
  {
    MatchedDefinitions(fetched, e);
  }

  function Without(fetch: seq<nat>, j: nat): seq<nat>
    requires j < |fetch|
  {
    fetch[..j] + fetch[j + 1..]
  }

  function ShareOf(rules: seq<RS.Rule>, fetch: seq<nat>): nat
    requires InRange(rules, fetch)
  {
    if fetch == [] then 0
    else ShareOf(rules, fetch[..|fetch| - 1]) + Percentage(rules[fetch[|fetch| - 1]].definition)
  }

  lemma {:induction false} ShareConcat(rules: seq<RS.Rule>, a: seq<nat>, b: seq<nat>)
    requires InRange(rules, a) && InRange(rules, b)
    ensures ShareOf(rules, a + b) == ShareOf(rules, a) + ShareOf(rules, b)
    decreases |b|
  {
    if b == [] {
      assert a + b == a;
    } else {
      var n := |b| - 1;
      assert (a + b)[..|a| + n] == a + b[..n];
      ShareConcat(rules, a, b[..n]);
    }
  }

  ghost predicate InRange(rules: seq<RS.Rule>, fetch: seq<nat>) {
    forall i :: 0 <= i < |fetch| ==> fetch[i] < |rules|
  }

  lemma ShareMiddle(rules: seq<RS.Rule>, a: seq<nat>, x: nat, b: seq<nat>)
    requires InRange(rules, a) && InRange(rules, b) && x < |rules|
    ensures InRange(rules, a + [x] + b) && InRange(rules, a + b)
    ensures ShareOf(rules, a + [x] + b) == ShareOf(rules, a + b) + Percentage(rules[x].definition)
  {
    ShareConcat(rules, a + [x], b);
    ShareConcat(rules, a, [x]);
    ShareConcat(rules, a, b);
    assert [x][..0] == [];
    assert ShareOf(rules, [x]) == Percentage(rules[x].definition);
  }

  lemma ShareWithout(rules: seq<RS.Rule>, fetch: seq<nat>, j: nat)
    requires j < |fetch| && InRange(rules, fetch)
    ensures InRange(rules, Without(fetch, j))
    ensures ShareOf(rules, fetch) == ShareOf(rules, Without(fetch, j)) + Percentage(rules[fetch[j]].definition)
  {
    var a, b := fetch[..j], fetch[j + 1..];
    assert fetch == a + [fetch[j]] + b;
    ShareMiddle(rules, a, fetch[j], b);
  }

  predicate Listed(rules: seq<RS.Rule>, account: string, id: nat) {
    id < |rules| && rules[id].accountRef == account && rules[id].status == RS.ACTIVE
  }

  /** `fetch` lists the account's ACTIVE rules among the first n, each once. */
  ghost predicate Lists(rules: seq<RS.Rule>, n: nat, account: string, fetch: seq<nat>) {
    && n <= |rules|
    && (forall i :: 0 <= i < |fetch| ==> fetch[i] < n && Listed(rules, account, fetch[i]))
    && (forall i, j :: 0 <= i < j < |fetch| ==> fetch[i] != fetch[j])
    && (forall id: nat :: id < n && Listed(rules, account, id) ==> id in fetch)
  }

  /** Whatever the order of the fetch, its percentages add up to the account's ACTIVE share. */
  lemma {:induction false} ShareOfFetch(rules: seq<RS.Rule>, n: nat, account: string, fetch: seq<nat>)
    requires Lists(rules, n, account, fetch)
    ensures ShareOf(rules, fetch) == RB.ActivePercentage(rules[..n], account)
    decreases n
  {
    if n == 0 {
      assert fetch == [];
    } else {
      var m := n - 1;
      SharePrefix(rules, m, account);
      if Listed(rules, account, m) {
        var j: nat :| j < |fetch| && fetch[j] == m;
        ShareWithout(rules, fetch, j);
        WithoutLists(rules, m, account, fetch, j);
        ShareOfFetch(rules, m, account, Without(fetch, j));
      } else {
        ListsFewer(rules, m, account, fetch);
        ShareOfFetch(rules, m, account, fetch);
      }
    }
  }

  lemma SharePrefix(rules: seq<RS.Rule>, m: nat, account: string)
    requires m < |rules|
    ensures RB.ActivePercentage(rules[..m + 1], account)
         == RB.ActivePercentage(rules[..m], account) + RB.ActiveShare(rules[m], account)
  {
    assert rules[..m + 1][..m] == rules[..m];
  }

  lemma ListsFewer(rules: seq<RS.Rule>, m: nat, account: string, fetch: seq<nat>)
    requires Lists(rules, m + 1, account, fetch) && !Listed(rules, account, m)
    ensures Lists(rules, m, account, fetch)
  {
    forall i | 0 <= i < |fetch| ensures fetch[i] < m {
      assert Listed(rules, account, fetch[i]);
    }
  }

  /** Where the elements of the shorter list come from. */
  function Back(i: nat, j: nat): nat {
    if i < j then i else i + 1
  }

  lemma WithoutLists(rules: seq<RS.Rule>, m: nat, account: string, fetch: seq<nat>, j: nat)
    requires Lists(rules, m + 1, account, fetch) && j < |fetch| && fetch[j] == m
    ensures Lists(rules, m, account, Without(fetch, j))
  {
    var rest := Without(fetch, j);
    assert forall i: nat :: i < |rest| ==> rest[i] == fetch[Back(i, j)] && Back(i, j) != j;
    forall id: nat | id < m && Listed(rules, account, id) ensures id in rest {
      var i: nat :| i < |fetch| && fetch[i] == id;
      assert rest[if i < j then i else i - 1] == id;
    }
  }

  lemma {:induction false} ShareIsTotal(rules: RS.State, fetch: seq<nat>)
    requires InRange(rules.rules, fetch)
    ensures TotalPercentage(Definitions(FetchedRules(rules, fetch))) == ShareOf(rules.rules, fetch)
    decreases |fetch|
  {
    if fetch == [] {
    } else {
      var n := |fetch| - 1;
      ShareIsTotal(rules, fetch[..n]);
      assert Definitions(FetchedRules(rules, fetch))[..n] == Definitions(FetchedRules(rules, fetch[..n]));
    }
  }

  /** The ACTIVE release rules of the account name percentages, not amounts. */
  ghost predicate OnlyPercentages(rules: RS.State, account: string) {
    forall id: nat :: IsActiveRule(rules, account, id) && rules.rules[id].definition.action.ReleaseFunds? ==>
      rules.rules[id].definition.action.payload.amountKobo.None?
  }

  lemma FetchLists(rules: RS.State, account: string, fetch: seq<nat>)
    requires IsFetch(rules, account, fetch)
    ensures Lists(rules.rules, |rules.rules|, account, fetch)
  {
    forall i | 0 <= i < |fetch| ensures Listed(rules.rules, account, fetch[i]) {
      assert IsActiveRule(rules, account, fetch[i]);
    }
    forall id: nat | Listed(rules.rules, account, id) ensures id in fetch {
      assert IsActiveRule(rules, account, id);
    }
  }

  /** The percentages of a fetch, in whatever order, are the account's ACTIVE share. */
  lemma FetchShare(rules: RS.State, account: string, fetch: seq<nat>)
    requires IsFetch(rules, account, fetch)
    ensures TotalPercentage(Definitions(FetchedRules(rules, fetch))) == RB.ActivePercentage(rules.rules, account)
  {
    ShareIsTotal(rules, fetch);
    FetchLists(rules, account, fetch);
    ShareOfFetch(rules.rules, |rules.rules|, account, fetch);
    assert rules.rules[..|rules.rules|] == rules.rules;
  }

  lemma FetchDefinitions(rules: RS.State, account: string, fetch: seq<nat>)
    requires RB.Wellformed(rules) && IsFetch(rules, account, fetch) && OnlyPercentages(rules, account)
    ensures var definitions := Definitions(FetchedRules(rules, fetch));
      AllPercentages(definitions) && forall i :: 0 <= i < |definitions| ==> ValidRule(definitions[i])
  {
    var definitions := Definitions(FetchedRules(rules, fetch));
    forall i | 0 <= i < |definitions|
      ensures ValidRule(definitions[i])
           && (definitions[i].action.ReleaseFunds? ==> definitions[i].action.payload.amountKobo.None?)
    {
      assert IsActiveRule(rules, account, fetch[i]);
      assert definitions[i] == rules.rules[fetch[i]].definition;
    }
  }

  /** What fires never exceeds the inflow: for PARALLEL when the ACTIVE share is at most 100, for SEQUENTIAL always. */
  lemma FiredWithinInflow(model: ExecutionModel, fetched: seq<Fetched>, e: Event)
    requires AllPercentages(Definitions(fetched)) && forall i :: 0 <= i < |fetched| ==> ValidRule(Definitions(fetched)[i])
    requires model == PARALLEL ==> TotalPercentage(Definitions(fetched)) <= 100
    ensures TotalCredit(Definitions(Fired(model, fetched, e)), e.amountKobo) <= e.amountKobo
  {
    var definitions := Definitions(fetched);
    FiredIsEvaluation(model, fetched, e);
    if model == PARALLEL {
      FiredRulesStayWithinInflow(definitions, e);
    } else if Matching(definitions, e) != [] {
      MatchedDefinitions(fetched, e);
      MatchedAreFetched(fetched, e);
      var f := MatchedRules(fetched, e)[0];
      assert f in fetched && f.definition == Matching(definitions, e)[0];
      var i :| 0 <= i < |fetched| && fetched[i] == f;
      assert definitions[i] == f.definition;
      OneRuleWithinInflow(f.definition, e.amountKobo);
    }
  }

  lemma OneRuleWithinInflow(r: RuleDefinition, inflow: nat)
    requires ValidRule(r) && (r.action.ReleaseFunds? ==> r.action.payload.amountKobo.None?)
    ensures TotalCredit([r], inflow) <= inflow
  {
    TotalPercentageSnoc([], r);
    assert [] + [r] == [r];
    SplitBound([r], [true], inflow);
    assert Sublist([r], [true]) == [r] by {
      assert [r][..0] == [] && [true][..0] == [];
      assert Sublist([], []) == [];
    }
  }

  // ----- End to end

  /** Run w has evaluated, and this is what matched. */
  predicate Planned(s: State, w: nat, matched: seq<Fetched>) {
    && w < |s.plans| && w < |s.inflows.workers|
    && s.plans[w].matched == matched && !WS.BeforeEvaluation(s.inflows.workers[w].pc)
  }

  lemma StepExtendsInflows(s: State, a: Action)
    ensures WS.Extends(s.inflows, After(s, a).inflows)
  {
    match a
    case ChangeRules(step) =>
      if Opened(s.rules, step).Some? { WS.StepExtends(s.inflows, W.OpenAccount(Opened(s.rules, step).value)); }
    case Worker(step) => WS.StepExtends(s.inflows, step);
    case DoEvaluate(w, fetch) => if w < |s.inflows.workers| {
      WS.AdvanceExtends(s.inflows, w, true);
      WS.AdvanceExtends(s.inflows, w, false);
    }
    case _ =>
  }

  lemma StepKeepsPlan(s: State, a: Action, w: nat, matched: seq<Fetched>)
    requires Planned(s, w, matched)
    ensures Planned(After(s, a), w, matched)
  {
    StepExtendsInflows(s, a);
  }

  lemma PlanNext(actions: seq<Action>, n: nat, w: nat, matched: seq<Fetched>)
    requires n < |actions| && Planned(At(actions, n), w, matched)
    ensures Planned(At(actions, n + 1), w, matched)
  {
    AtStep(actions, n);
    StepKeepsPlan(At(actions, n), actions[n], w, matched);
  }

  lemma {:induction false} PlanForever(actions: seq<Action>, n: nat, m: nat, w: nat, matched: seq<Fetched>)
    requires n <= m <= |actions| && Planned(At(actions, n), w, matched)
    ensures Planned(At(actions, m), w, matched)
    decreases m
  {
    if n == m {
    } else {
      PlanForever(actions, n, m - 1, w, matched);
      PlanNext(actions, m - 1, w, matched);
    }
  }

  lemma InflowsNext(actions: seq<Action>, n: nat)
    requires n < |actions|
    ensures WS.Extends(At(actions, n).inflows, At(actions, n + 1).inflows)
  {
    AtStep(actions, n);
    StepExtendsInflows(At(actions, n), actions[n]);
  }

  lemma {:induction false} InflowsForever(actions: seq<Action>, n: nat, m: nat)
    requires n <= m <= |actions|
    ensures WS.Extends(At(actions, n).inflows, At(actions, m).inflows)
    decreases m
  {
    if n == m {
    } else {
      InflowsForever(actions, n, m - 1);
      InflowsNext(actions, m - 1);
      ExtendsTwice(At(actions, n).inflows, At(actions, m - 1).inflows, At(actions, m).inflows);
    }
  }

  lemma ExtendsTwice(a: W.State, b: W.State, c: W.State)
    requires WS.Extends(a, b) && WS.Extends(b, c)
    ensures WS.Extends(a, c)
  {
    forall i | 0 <= i < |a.ledger| ensures WS.SameRow(a.ledger[i], c.ledger[i]) {
      assert WS.SameRow(a.ledger[i], b.ledger[i]) && WS.SameRow(b.ledger[i], c.ledger[i]);
    }
  }

  /** What run w finds when it evaluates its inflow: percentages only, and a share of at most 100 if it read the
      account as PARALLEL. Under SEQUENTIAL at most one rule fires, so the share does not matter. */
  ghost predicate EvaluatesSplit(s: State, w: nat, fetch: seq<nat>) {
    && Evaluates(s, w) && s.inflows.workers[w].pc.Recorded?
    && var account := s.inflows.workers[w].payload.accountNumber;
       && IsFetch(s.rules, account, fetch) && OnlyPercentages(s.rules, account)
       && (s.plans[w].model == PARALLEL ==> RB.ActivePercentage(s.rules.rules, account) <= 100)
  }

  lemma FiredWithinPlan(s: State, w: nat, fetch: seq<nat>)
    requires Inv(s) && EvaluatesSplit(s, w, fetch)
    ensures var p := s.inflows.workers[w].payload;
      TotalCredit(Definitions(Fired(s.plans[w].model, FetchedRules(s.rules, fetch), EventFor(s, w))), p.amountKobo)
      <= p.amountKobo
  {
    var account := s.inflows.workers[w].payload.accountNumber;
    FetchShare(s.rules, account, fetch);
    FetchDefinitions(s.rules, account, fetch);
    FiredWithinInflow(s.plans[w].model, FetchedRules(s.rules, fetch), EventFor(s, w));
  }

  lemma EvaluationPlansWithinInflow(s: State, w: nat, fetch: seq<nat>)
    requires Inv(s) && EvaluatesSplit(s, w, fetch)
    ensures var t, p := EvaluateRules(s, w, fetch), s.inflows.workers[w].payload;
      && w < |t.plans| == |t.inflows.workers| && !WS.BeforeEvaluation(t.inflows.workers[w].pc)
      && TotalCredit(Definitions(t.plans[w].matched), p.amountKobo) <= p.amountKobo
      && t.inflows.ledger == s.inflows.ledger && WS.OwnsRow(s.inflows, w, p)
  {
    FiredWithinPlan(s, w, fetch);
    assert WS.Positioned(s.inflows, w);
  }

  /** End to end: when run w evaluates an inflow on an account whose ACTIVE release rules are percentages, of at most
      100 together if the run executes in PARALLEL, then in every later state everything ever credited to any bucket
      from that transaction, over all attempts, retries, crashes and redeliveries, is at most the inflow. */
  lemma AllocationsWithinInflow(actions: seq<Action>, n: nat, m: nat, w: nat, fetch: seq<nat>)
    requires n < m <= |actions| && actions[n] == DoEvaluate(w, fetch) && EvaluatesSplit(At(actions, n), w, fetch)
    ensures var p := At(actions, n).inflows.workers[w].payload;
      Total(AllocatedFrom(p.transactionRef), At(actions, m).core.treasury.entries) <= p.amountKobo
  {
    var s := At(actions, n);
    var p := s.inflows.workers[w].payload;
    RunKeepsInv(actions, n);
    AtStep(actions, n);
    EvaluationPlansWithinInflow(s, w, fetch);
    PlanForever(actions, n + 1, m, w, At(actions, n + 1).plans[w].matched);
    InflowsForever(actions, n + 1, m);
    RunKeepsInv(actions, m);
    PlannedInflow(s.inflows, At(actions, n + 1), At(actions, m), w, p);
  }

  lemma PlannedInflow(recorded: W.State, s: State, t: State, w: nat, p: W.Payload)
    requires Inv(t) && WS.Extends(s.inflows, t.inflows) && s.inflows.ledger == recorded.ledger && WS.OwnsRow(recorded, w, p)
    requires w < |s.plans| && w < |t.plans| && t.plans[w].matched == s.plans[w].matched
    requires TotalCredit(Definitions(s.plans[w].matched), p.amountKobo) <= p.amountKobo
    ensures Total(AllocatedFrom(p.transactionRef), t.core.treasury.entries) <= p.amountKobo
  {
    var i :| 0 <= i < |recorded.ledger| && WS.IsRowOf(recorded.ledger[i], w, p);
    assert WS.SameRow(s.inflows.ledger[i], t.inflows.ledger[i]);
    WithinPlan(t, i);
  }
}
