/** What evaluations and allocations mean, over every run of the pipeline: which rules a run executes, said in terms
    of the rule table and the recorded inflow, and what every allocation row says, in terms of its rule and inflow. */
module PipelineMeaning {
  import opened Wrappers
  import opened BucketLedger
  import opened RuleEngine
  import opened AccountLedger
  import RS = RuleSets
  import RB = RuleBounds
  import W = InflowWorker
  import WS = InflowSafety
  import R = Release
  import S = ReleaseSafety
  import RO = ReleaseOutcomes
  import opened Pipeline
  import opened PipelineLinks

  // ----- Which rules a run executes

  /** The rule is for this event: an inflow rule whose range contains the amounts, or a custom-event rule of exactly
      the name that the delivery carries. */
  ghost predicate Qualifies(d: RuleDefinition, p: W.Payload, amount: nat, cumulative: nat) {
    match d.trigger
    case InflowReceived(c) => InRange(RangeOf(c), amount, cumulative)
    case CustomEvent(name) => name != "" && name != "NOMBA_INFLOW" && p.eventType == Some(name)
    case _ => false
  }

  /** ACTIVE, on the account, and for this event. */
  ghost predicate Eligible(s: State, id: nat, p: W.Payload, amount: nat, cumulative: nat) {
    && id < |s.rules.rules| && s.rules.rules[id].accountRef == p.accountNumber && s.rules.rules[id].status == RS.ACTIVE
    && Qualifies(s.rules.rules[id].definition, p, amount, cumulative)
  }

  ghost predicate InPlan(plan: Plan, id: nat) {
    exists j :: 0 <= j < |plan.matched| && plan.matched[j].rule == id
  }

  lemma InflowQualifies(d: RuleDefinition, p: W.Payload, amount: nat, cumulative: nat)
    requires ValidRule(d) && !W.IsCustom(p)
    ensures Matches(d, InflowEvent(amount, cumulative)) <==> Qualifies(d, p, amount, cumulative)
  {
    if d.trigger.InflowReceived? {
      ConditionIsRange(d.trigger.condition);
      assert MatchesInflow(d.trigger.condition, amount, cumulative)
        <==> InRange(RangeOf(d.trigger.condition), amount, cumulative);
    }
  }

  lemma CustomQualifies(d: RuleDefinition, p: W.Payload)
    requires ValidRule(d) && W.IsCustom(p)
    ensures Matches(d, CustomEventOf(p.eventType.value)) <==> Qualifies(d, p, 0, 0)
  {
    if d.trigger.InflowReceived? {
      ConditionIsRange(d.trigger.condition);
      assert MatchesInflow(d.trigger.condition, 0, 0) <==> InRange(RangeOf(d.trigger.condition), 0, 0);
    }
  }

  // ----- The loop over the fetched rules

  ghost predicate Ordered(fetched: seq<Fetched>) {
    forall i, j :: 0 <= i < j < |fetched| ==>
      fetched[i].rule != fetched[j].rule && fetched[i].definition.priority <= fetched[j].definition.priority
  }

  lemma {:induction false} MatchedOrdered(fetched: seq<Fetched>, e: Event)
    requires Ordered(fetched)
    ensures Ordered(MatchedRules(fetched, e))
    ensures forall f :: f in MatchedRules(fetched, e) <==> f in fetched && Matches(f.definition, e)
    decreases |fetched|
  {
    if fetched == [] {
    } else {
      var n := |fetched| - 1;
      var before := MatchedRules(fetched[..n], e);
      MatchedOrdered(fetched[..n], e);
      assert fetched == fetched[..n] + [fetched[n]];
      forall i | 0 <= i < |before|
        ensures before[i].rule != fetched[n].rule && before[i].definition.priority <= fetched[n].definition.priority
      {
        assert before[i] in fetched[..n];
        var j :| 0 <= j < n && fetched[j] == before[i];
      }
    }
  }

  lemma FetchOrdered(rules: RS.State, account: string, fetch: seq<nat>)
    requires IsFetch(rules, account, fetch)
    ensures Ordered(FetchedRules(rules, fetch))
    ensures forall id: nat :: IsActiveRule(rules, account, id) ==> FetchOne(rules, id) in FetchedRules(rules, fetch)
    ensures forall f :: f in FetchedRules(rules, fetch) ==>
      IsActiveRule(rules, account, f.rule) && f == FetchOne(rules, f.rule)
  {
    var fetched := FetchedRules(rules, fetch);
    forall id: nat | IsActiveRule(rules, account, id) ensures FetchOne(rules, id) in fetched {
      var i :| 0 <= i < |fetch| && fetch[i] == id;
      assert fetched[i] == FetchOne(rules, id);
    }
  }

  /** What the loop returns for a fetch of the table, rule by rule. */
  ghost predicate Covers(s: State, matched: seq<Fetched>, p: W.Payload, amount: nat, cumulative: nat) {
    && Ordered(matched)
    && (forall id: nat :: Eligible(s, id, p, amount, cumulative) <==>
          exists j :: 0 <= j < |matched| && matched[j].rule == id)
    && (forall j :: 0 <= j < |matched| ==>
          matched[j].rule < |s.rules.rules| && matched[j].definition == s.rules.rules[matched[j].rule].definition)
  }

  lemma MatchedCover(s: State, p: W.Payload, fetch: seq<nat>, e: Event, amount: nat, cumulative: nat)
    requires RB.Wellformed(s.rules) && IsFetch(s.rules, p.accountNumber, fetch)
    requires forall id: nat :: IsActiveRule(s.rules, p.accountNumber, id) ==>
      (Matches(s.rules.rules[id].definition, e) <==> Qualifies(s.rules.rules[id].definition, p, amount, cumulative))
    ensures Covers(s, MatchedRules(FetchedRules(s.rules, fetch), e), p, amount, cumulative)
  {
    var fetched := FetchedRules(s.rules, fetch);
    var matched := MatchedRules(fetched, e);
    FetchOrdered(s.rules, p.accountNumber, fetch);
    MatchedOrdered(fetched, e);
    forall j | 0 <= j < |matched|
      ensures matched[j] in fetched && Matches(matched[j].definition, e)
      ensures matched[j] == FetchOne(s.rules, matched[j].rule) && Eligible(s, matched[j].rule, p, amount, cumulative)
    {
      assert matched[j] in matched;
    }
    forall id: nat | Eligible(s, id, p, amount, cumulative) ensures exists j :: 0 <= j < |matched| && matched[j].rule == id {
      assert IsActiveRule(s.rules, p.accountNumber, id);
      assert FetchOne(s.rules, id) in matched;
      var j :| 0 <= j < |matched| && matched[j] == FetchOne(s.rules, id);
      assert matched[j].rule == id;
    }
  }

  /** The plan of a run that has read the account with this execution model: under PARALLEL every eligible rule and no
      other, each once, in order of priority; under SEQUENTIAL one eligible rule of minimal priority, if there is any. */
  ghost predicate IsPlanFor(s: State, plan: Plan, p: W.Payload, amount: nat, cumulative: nat) {
    && Ordered(plan.matched)
    && (plan.model == PARALLEL ==> forall id: nat :: InPlan(plan, id) <==> Eligible(s, id, p, amount, cumulative))
    && (plan.model == SEQUENTIAL ==>
          && |plan.matched| <= 1
          && (plan.matched == [] <==> forall id: nat :: !Eligible(s, id, p, amount, cumulative))
          && forall id: nat :: InPlan(plan, id) ==>
               && Eligible(s, id, p, amount, cumulative)
               && forall other: nat :: Eligible(s, other, p, amount, cumulative) ==>
                    s.rules.rules[id].definition.priority <= s.rules.rules[other].definition.priority)
  }

  lemma CoveredPlan(s: State, model: ExecutionModel, fetched: seq<Fetched>, e: Event, plan: Plan,
                    p: W.Payload, amount: nat, cumulative: nat)
    requires Covers(s, MatchedRules(fetched, e), p, amount, cumulative)
    requires plan.model == model && plan.matched == Fired(model, fetched, e)
    ensures IsPlanFor(s, plan, p, amount, cumulative)
  {
    var all := MatchedRules(fetched, e);
    if model == SEQUENTIAL && all != [] {
      assert plan.matched == [all[0]];
      assert Eligible(s, all[0].rule, p, amount, cumulative);
      forall other: nat | Eligible(s, other, p, amount, cumulative)
        ensures s.rules.rules[all[0].rule].definition.priority <= s.rules.rules[other].definition.priority
      {
        var j :| 0 <= j < |all| && all[j].rule == other;
      }
    }
  }

  /** Run w evaluates an inflow: the event carries the amounts of the row that the run recorded. */
  lemma InflowPlanned(s: State, w: nat, fetch: seq<nat>, i: nat)
    requires Inv(s) && Evaluates(s, w) && IsFetch(s.rules, s.inflows.workers[w].payload.accountNumber, fetch)
    requires !W.IsCustom(s.inflows.workers[w].payload)
    requires i < |s.inflows.ledger| && s.inflows.ledger[i].transactionRef == s.inflows.workers[w].payload.transactionRef
    ensures var p, row := s.inflows.workers[w].payload, s.inflows.ledger[i];
      && w < |EvaluateRules(s, w, fetch).plans|
      && IsPlanFor(s, EvaluateRules(s, w, fetch).plans[w], p, row.amountKobo, row.cumulativeAmountKobo)
  {
    var p, row := s.inflows.workers[w].payload, s.inflows.ledger[i];
    assert WS.Positioned(s.inflows, w);
    var j :| 0 <= j < |s.inflows.ledger| && WS.IsRowOf(s.inflows.ledger[j], w, p)
             && s.inflows.ledger[j].cumulativeAmountKobo == s.inflows.workers[w].pc.cumulative;
    assert i == j;
    forall id: nat | IsActiveRule(s.rules, p.accountNumber, id)
      ensures Matches(s.rules.rules[id].definition, EventFor(s, w))
        <==> Qualifies(s.rules.rules[id].definition, p, row.amountKobo, row.cumulativeAmountKobo)
    {
      InflowQualifies(s.rules.rules[id].definition, p, row.amountKobo, row.cumulativeAmountKobo);
    }
    MatchedCover(s, p, fetch, EventFor(s, w), row.amountKobo, row.cumulativeAmountKobo);
    CoveredPlan(s, s.plans[w].model, FetchedRules(s.rules, fetch), EventFor(s, w),
                EvaluateRules(s, w, fetch).plans[w], p, row.amountKobo, row.cumulativeAmountKobo);
  }

  lemma CustomPlanned(s: State, w: nat, fetch: seq<nat>)
    requires Inv(s) && Evaluates(s, w) && IsFetch(s.rules, s.inflows.workers[w].payload.accountNumber, fetch)
    requires W.IsCustom(s.inflows.workers[w].payload)
    ensures w < |EvaluateRules(s, w, fetch).plans|
    ensures IsPlanFor(s, EvaluateRules(s, w, fetch).plans[w], s.inflows.workers[w].payload, 0, 0)
  {
    var p := s.inflows.workers[w].payload;
    assert WS.Positioned(s.inflows, w);
    forall id: nat | IsActiveRule(s.rules, p.accountNumber, id)
      ensures Matches(s.rules.rules[id].definition, EventFor(s, w)) <==> Qualifies(s.rules.rules[id].definition, p, 0, 0)
    {
      CustomQualifies(s.rules.rules[id].definition, p);
    }
    MatchedCover(s, p, fetch, EventFor(s, w), 0, 0);
    CoveredPlan(s, s.plans[w].model, FetchedRules(s.rules, fetch), EventFor(s, w),
                EvaluateRules(s, w, fetch).plans[w], p, 0, 0);
  }

  /** A run can evaluate exactly when it has recorded its inflow or claimed its custom event. */
  lemma EvaluatesExactlyWhen(s: State, w: nat)
    requires Inv(s)
    ensures Evaluates(s, w) <==>
      w < |s.inflows.workers| && (s.inflows.workers[w].pc.Recorded? || s.inflows.workers[w].pc.Claimed?)
    ensures w < |s.inflows.workers| && s.inflows.workers[w].pc.Recorded? ==> !W.IsCustom(s.inflows.workers[w].payload)
    ensures w < |s.inflows.workers| && s.inflows.workers[w].pc.Claimed? ==> W.IsCustom(s.inflows.workers[w].payload)
  {
    if w < |s.inflows.workers| { assert WS.Positioned(s.inflows, w); }
  }

  /** In every run, when run w evaluates the inflow it recorded as row i, its plan is: under PARALLEL the account's
      ACTIVE rules whose range contains the amount and the running total of that row, each once, in order of priority;
      under SEQUENTIAL one of minimal priority among them. */
  lemma InflowPlanMeans(actions: seq<Action>, n: nat, w: nat, fetch: seq<nat>, i: nat)
    requires n < |actions| && actions[n] == DoEvaluate(w, fetch)
    requires w < |At(actions, n).inflows.workers| && At(actions, n).inflows.workers[w].pc.Recorded?
    requires var s := At(actions, n);
             var p := s.inflows.workers[w].payload;
      && IsFetch(s.rules, p.accountNumber, fetch)
      && i < |s.inflows.ledger| && s.inflows.ledger[i].transactionRef == p.transactionRef
    ensures var s := At(actions, n);
            var p, row := s.inflows.workers[w].payload, s.inflows.ledger[i];
      && w < |At(actions, n + 1).plans|
      && IsPlanFor(s, At(actions, n + 1).plans[w], p, row.amountKobo, row.cumulativeAmountKobo)
  {
    RunKeepsInv(actions, n);
    AtStep(actions, n);
    EvaluatesExactlyWhen(At(actions, n), w);
    InflowPlanned(At(actions, n), w, fetch, i);
  }

  /** The same for a custom event: its rules by exact name, and inflow rules whose range contains zero. */
  lemma CustomPlanMeans(actions: seq<Action>, n: nat, w: nat, fetch: seq<nat>)
    requires n < |actions| && actions[n] == DoEvaluate(w, fetch)
    requires w < |At(actions, n).inflows.workers| && At(actions, n).inflows.workers[w].pc.Claimed?
    requires IsFetch(At(actions, n).rules, At(actions, n).inflows.workers[w].payload.accountNumber, fetch)
    ensures w < |At(actions, n + 1).plans|
    ensures IsPlanFor(At(actions, n), At(actions, n + 1).plans[w], At(actions, n).inflows.workers[w].payload, 0, 0)
  {
    RunKeepsInv(actions, n);
    AtStep(actions, n);
    EvaluatesExactlyWhen(At(actions, n), w);
    CustomPlanned(At(actions, n), w, fetch);
  }

  // ----- What an allocation row says

  /** Row e is the release of execution x: of x's rule, for x's inflow, on the same account. */
  ghost predicate Releases(s: State, x: R.Execution, e: Entry) {
    && x.rule < |s.rules.rules| && x.entry.Some? && x.entry.value < |s.inflows.ledger|
    && var rule, row := s.rules.rules[x.rule], s.inflows.ledger[x.entry.value];
       && rule.accountRef == row.account && rule.accountRef in s.rules.accounts && rule.definition.action.ReleaseFunds?
       && var p := rule.definition.action.payload;
          var bucket := BucketId(s.rules.accounts[rule.accountRef].businessId, p.destinationAccountRef);
          && e.entryType == CREDIT && e.bucket == bucket && e.origin == Allocation(row.transactionRef)
          && bucket in s.core.cuids && |s.core.cuids[bucket]| >= 8
          && e.reference == "alloc_" + row.transactionRef + "_" + s.core.cuids[bucket][..8]
          && match p.percentage
             case Some(percentage) =>
               100 * e.amountKobo <= percentage * row.amountKobo < 100 * e.amountKobo + 100
             case None => p.amountKobo == Some(e.amountKobo)
  }

  lemma WroteReleases(s: State, k: nat, e: Entry)
    requires Inv(s) && k < |s.core.executions| && S.Wrote(s.core, s.core.executions[k], e)
    ensures Releases(s, s.core.executions[k], e)
  {
    var x := s.core.executions[k];
    assert S.Sound(s.core, x) && Linked(s, x);
    RO.CreditAmountNames(x.task.payload, x.task.inflow);
    assert RO.Names(x.task.payload, x.task.inflow, e.amountKobo);
  }

  lemma RowReleases(s: State, i: nat)
    requires Inv(s) && i < |s.core.treasury.entries| && s.core.treasury.entries[i].origin.Allocation?
    ensures exists k: nat :: k < |s.core.executions| && s.core.executions[k].credited
                             && Releases(s, s.core.executions[k], s.core.treasury.entries[i])
  {
    var e := s.core.treasury.entries[i];
    assert S.Explained(s.core, e);
    var k :| 0 <= k < |s.core.executions| && S.Wrote(s.core, s.core.executions[k], e);
    WroteReleases(s, k, e);
  }

  /** In every run every allocation row is the release of an execution: on the bucket of the account's business that its
      rule names, under the reference of its transaction and bucket, and of the percentage of the recorded inflow,
      rounded down, or of the fixed amount, that its rule names. */
  lemma AllocationRowMeans(actions: seq<Action>, n: nat, i: nat)
    requires n <= |actions| && i < |At(actions, n).core.treasury.entries|
    requires At(actions, n).core.treasury.entries[i].origin.Allocation?
    ensures var s := At(actions, n);
      exists k: nat :: k < |s.core.executions| && s.core.executions[k].credited
                       && Releases(s, s.core.executions[k], s.core.treasury.entries[i])
  {
    RunKeepsInv(actions, n);
    RowReleases(At(actions, n), i);
  }

  // ----- The execution model of a run

  /** The run has read its account and goes on. */
  predicate PastRead(pc: W.Pc) {
    pc.Found? || pc.Claimed? || pc.Recorded? || pc.Evaluated? || pc.Reconciled?
  }

  /** At step m run w reads its account, which has this execution model. */
  ghost predicate ReadsModelAt(actions: seq<Action>, m: nat, w: nat, model: ExecutionModel) {
    && m < |actions| && actions[m].Worker? && actions[m].workerStep.Work? && actions[m].workerStep.worker == w
    && ReadsModel(At(actions, m), w, model)
  }

  ghost predicate ReadsModel(s: State, w: nat, model: ExecutionModel) {
    && w < |s.inflows.workers| && s.inflows.workers[w].pc.NotSeen?
    && s.inflows.workers[w].payload.accountNumber in s.rules.accounts
    && s.rules.accounts[s.inflows.workers[w].payload.accountNumber].model == model
  }

  /** Run w has read its account and remembers this model. */
  ghost predicate Remembers(s: State, w: nat, model: ExecutionModel) {
    && w < |s.inflows.workers| && w < |s.plans|
    && PastRead(s.inflows.workers[w].pc) && s.plans[w].model == model
  }

  lemma WorkKeepsModel(s: State, a: W.Action, w: nat, model: ExecutionModel)
    requires Inv(s) && Remembers(Inflow(s, a), w, model) && !Remembers(s, w, model)
    ensures a.Work? && a.worker == w && ReadsModel(s, w, model)
  {
    if a.Work? && a.worker < |s.inflows.workers| {
      WS.AdvanceMoves(s.inflows, a.worker, a.matched);
    }
  }

  lemma StepKeepsModel(s: State, a: Action, w: nat, model: ExecutionModel)
    requires Inv(s) && Remembers(After(s, a), w, model) && !Remembers(s, w, model)
    ensures a.Worker? && a.workerStep.Work? && a.workerStep.worker == w && ReadsModel(s, w, model)
  {
    match a
    case Worker(step) => WorkKeepsModel(s, step, w, model);
    case DoEvaluate(v, fetch) =>
      if Evaluates(s, v) {
        WS.AdvanceMoves(s.inflows, v, true);
        WS.AdvanceMoves(s.inflows, v, false);
      }
    case _ =>
  }

  lemma ModelNext(actions: seq<Action>, n: nat, w: nat, model: ExecutionModel)
    requires n < |actions| && Remembers(At(actions, n + 1), w, model) && !Remembers(At(actions, n), w, model)
    ensures ReadsModelAt(actions, n, w, model)
  {
    AtStep(actions, n);
    RunKeepsInv(actions, n);
    StepKeepsModel(At(actions, n), actions[n], w, model);
  }

  lemma NothingRemembered(actions: seq<Action>, w: nat, model: ExecutionModel)
    ensures !Remembers(At(actions, 0), w, model)
  {
  }

  lemma {:induction false} ReadBefore(actions: seq<Action>, n: nat, w: nat, model: ExecutionModel) returns (m: nat)
    requires n <= |actions| && Remembers(At(actions, n), w, model)
    ensures m < n && ReadsModelAt(actions, m, w, model)
    decreases n
  {
    NothingRemembered(actions, w, model);
    if Remembers(At(actions, n - 1), w, model) {
      m := ReadBefore(actions, n - 1, w, model);
    } else {
      ModelNext(actions, n - 1, w, model);
      m := n - 1;
    }
  }

  /** In every run the model under which a run evaluates is the one its account had when the run read it. */
  lemma ModelAsRead(actions: seq<Action>, n: nat, w: nat)
    requires n <= |actions| && Evaluates(At(actions, n), w)
    ensures exists m: nat :: m < n && ReadsModelAt(actions, m, w, At(actions, n).plans[w].model)
  {
    var m := ReadBefore(actions, n, w, At(actions, n).plans[w].model);
  }

  // ----- MATCHED and UNMATCHED

  /** The row's run is past its reconciliation, and the row was not held back. */
  ghost predicate IsReconciled(s: State, i: nat) {
    && i < |s.inflows.ledger| && s.inflows.ledger[i].writer < |s.inflows.workers| == |s.plans|
    && !WS.HeldBack(s.inflows.ledger[i])
    && (s.inflows.workers[s.inflows.ledger[i].writer].pc.Reconciled? || s.inflows.workers[s.inflows.ledger[i].writer].pc.Done?)
  }

  ghost predicate LabelFits(s: State, i: nat)
    requires IsReconciled(s, i)
  {
    s.inflows.ledger[i].reconciliation == MATCHED <==> s.plans[s.inflows.ledger[i].writer].matched != []
  }

  ghost predicate LabelsFit(s: State) {
    forall i: nat :: IsReconciled(s, i) ==> LabelFits(s, i)
  }

  /** Row, run and plan are as before. */
  lemma SameLabel(s: State, t: State, i: nat)
    requires LabelsFit(s) && IsReconciled(t, i) && i < |s.inflows.ledger| && t.inflows.ledger[i] == s.inflows.ledger[i]
    requires s.inflows.ledger[i].writer < |s.inflows.workers| == |s.plans|
    requires t.inflows.workers[t.inflows.ledger[i].writer] == s.inflows.workers[s.inflows.ledger[i].writer]
    requires t.plans[t.inflows.ledger[i].writer].matched == s.plans[s.inflows.ledger[i].writer].matched
    ensures LabelFits(t, i)
  {
    assert IsReconciled(s, i) && LabelFits(s, i);
  }

  /** The run that wrote row i works. */
  lemma OwnWorkLabels(s: State, a: W.Action, i: nat)
    requires Inv(s) && LabelsFit(s) && a.Work? && i < |s.inflows.ledger| && s.inflows.ledger[i].writer == a.worker
    requires IsReconciled(Inflow(s, a), i)
    ensures LabelFits(Inflow(s, a), i)
  {
    var w, t := a.worker, Inflow(s, a);
    assert WS.Followed(s.inflows, i) && PlanSound(s, w);
    if s.inflows.workers[w].pc.Evaluated? && t != s {
      WS.RelabelsOwnRow(s.inflows, w, i);
      assert t.inflows.ledger[i].reconciliation == if s.inflows.workers[w].pc.matched then MATCHED else UNMATCHED;
    } else if s.inflows.workers[w].pc.Reconciled? || t == s {
      assert IsReconciled(s, i) && LabelFits(s, i);
    }
  }

  lemma WorkLabels(s: State, a: W.Action, i: nat)
    requires Inv(s) && LabelsFit(s) && a.Work? && a.worker < |s.inflows.workers| && IsReconciled(Inflow(s, a), i)
    ensures LabelFits(Inflow(s, a), i)
  {
    var w, t := a.worker, Inflow(s, a);
    if i < |s.inflows.ledger| {
      assert WS.Followed(s.inflows, i);
      if s.inflows.ledger[i].writer == w {
        OwnWorkLabels(s, a, i);
      } else {
        WS.OtherRowUntouched(s.inflows, w, a.matched, i);
        SameLabel(s, t, i);
      }
    } else {
      WS.AdvanceGrowth(s.inflows, w, a.matched);
      NewRowLabel(s, w, a.matched, i);
    }
  }

  /** A new row is either held back or about to be evaluated. */
  lemma NewRowLabel(s: State, w: nat, matched: bool, i: nat)
    requires Inv(s) && w < |s.inflows.workers| && i == |s.inflows.ledger| < |W.Advance(s.inflows, w, matched).ledger|
    ensures !IsReconciled(Inflow(s, W.Work(w, matched)), i)
  {
    WS.AdvanceMoves(s.inflows, w, matched);
    WS.AdvanceGrowth(s.inflows, w, matched);
  }

  lemma FlagLabels(s: State, v: nat, i: nat)
    requires Inv(s) && LabelsFit(s) && IsReconciled(Inflow(s, W.FlagRow(v)), i)
    ensures LabelFits(Inflow(s, W.FlagRow(v)), i)
  {
    var t := Inflow(s, W.FlagRow(v));
    assert WS.Followed(s.inflows, i);
    if v < |s.inflows.workers| && s.inflows.workers[v].pc == W.Evaluated(true)
       && s.inflows.ledger[i].transactionRef == s.inflows.workers[v].payload.transactionRef {
      WS.RelabelsOwnRow(s.inflows, v, i);
      assert false;
    } else {
      SameLabel(s, t, i);
    }
  }

  lemma StepKeepsLabels(s: State, a: Action)
    requires Inv(s) && LabelsFit(s)
    ensures LabelsFit(After(s, a))
  {
    var t := After(s, a);
    forall i: nat | IsReconciled(t, i) ensures LabelFits(t, i) {
      StepKeepsLabel(s, a, i);
    }
  }

  lemma StepKeepsLabel(s: State, a: Action, i: nat)
    requires Inv(s) && LabelsFit(s) && IsReconciled(After(s, a), i)
    ensures LabelFits(After(s, a), i)
  {
    match a
    case Worker(step) => WorkerLabels(s, step, i);
    case DoEvaluate(w, fetch) => EvaluationLabels(s, w, fetch, i);
    case ChangeRules(step) => SameLabel(s, After(s, a), i);
    case DoLoadRow(_) => SameLabel(s, After(s, a), i);
    case DoBegin(_) => SameLabel(s, After(s, a), i);
    case _ => SameLabel(s, After(s, a), i);
  }

  lemma WorkerLabels(s: State, a: W.Action, i: nat)
    requires Inv(s) && LabelsFit(s) && IsReconciled(Inflow(s, a), i)
    ensures LabelFits(Inflow(s, a), i)
  {
    match a
    case Work(w, _) => if w < |s.inflows.workers| { WorkLabels(s, a, i); } else { SameLabel(s, Inflow(s, a), i); }
    case FlagRow(v) => FlagLabels(s, v, i);
    case Deliver(_) =>
      assert WS.Followed(s.inflows, i);
      SameLabel(s, Inflow(s, a), i);
    case Crash(_) =>
      assert WS.Followed(s.inflows, i);
      SameLabel(s, Inflow(s, a), i);
    case _ => SameLabel(s, Inflow(s, a), i);
  }

  lemma EvaluationLabels(s: State, w: nat, fetch: seq<nat>, i: nat)
    requires Inv(s) && LabelsFit(s) && IsReconciled(EvaluateRules(s, w, fetch), i)
    ensures LabelFits(EvaluateRules(s, w, fetch), i)
  {
    var t := EvaluateRules(s, w, fetch);
    if t == s {
      assert LabelFits(s, i);
    } else {
      assert WS.Followed(s.inflows, i) && WS.Positioned(s.inflows, w);
      SameLabel(s, t, i);
    }
  }

  lemma {:induction false} RunKeepsLabels(actions: seq<Action>, n: nat)
    requires n <= |actions|
    ensures LabelsFit(At(actions, n))
    decreases n
  {
    if n == 0 {
    } else {
      RunKeepsLabels(actions, n - 1);
      RunKeepsInv(actions, n - 1);
      AtStep(actions, n - 1);
      StepKeepsLabels(At(actions, n - 1), actions[n - 1]);
    }
  }

  /** In every run a row whose run is past its reconciliation, and that was not held back, is MATCHED if and only if some
      rule fired for it. */
  lemma MatchedExactlyWhen(actions: seq<Action>, n: nat, i: nat)
    requires n <= |actions| && IsReconciled(At(actions, n), i)
    ensures At(actions, n).inflows.ledger[i].reconciliation == MATCHED <==>
      At(actions, n).plans[At(actions, n).inflows.ledger[i].writer].matched != []
  {
    RunKeepsLabels(actions, n);
    assert LabelFits(At(actions, n), i);
  }
}
