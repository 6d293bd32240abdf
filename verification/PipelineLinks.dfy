/** What ties executions to rules, ledger rows and worker runs in every state of the pipeline, and why a retry's
    lookup gives what the first attempt had. */
module PipelineLinks {
  import opened Wrappers
  import opened RuleEngine
  import RS = RuleSets
  import RB = RuleBounds
  import W = InflowWorker
  import WS = InflowSafety
  import R = Release
  import S = ReleaseSafety
  import opened Pipeline

  // ----- The invariant

  ghost predicate FetchedSound(rules: RS.State, f: Fetched) {
    && f.rule < |rules.rules| && rules.rules[f.rule].definition == f.definition
    && rules.rules[f.rule].accountRef in rules.accounts
    && rules.accounts[rules.rules[f.rule].accountRef].businessId == f.businessId
  }

  /** The rule is one of this account. */
  ghost predicate OfAccount(rules: RS.State, f: Fetched, account: string) {
    f.rule < |rules.rules| && rules.rules[f.rule].accountRef == account
  }

  /** The row read back is the one that run w wrote. */
  ghost predicate RecordSound(inflows: W.State, w: nat, r: Record) {
    && w < |inflows.workers| && r.entry < |inflows.ledger|
    && WS.IsRowOf(inflows.ledger[r.entry], w, inflows.workers[w].payload)
    && inflows.ledger[r.entry].transactionRef == r.transactionRef && inflows.ledger[r.entry].amountKobo == r.amountKobo
  }

  ghost predicate PlanSound(s: State, w: nat)
    requires w < |s.plans| == |s.inflows.workers|
  {
    var plan := s.plans[w];
    && plan.next <= |plan.matched|
    && (plan.matched != [] ==> !WS.BeforeEvaluation(s.inflows.workers[w].pc))
    && (s.inflows.workers[w].pc.Evaluated? ==> (s.inflows.workers[w].pc.matched <==> plan.matched != []))
    && (forall i :: 0 <= i < |plan.matched| ==>
          FetchedSound(s.rules, plan.matched[i])
          && OfAccount(s.rules, plan.matched[i], s.inflows.workers[w].payload.accountNumber))
    && (plan.record.Some? ==> RecordSound(s.inflows, w, plan.record.value))
  }

  /** The execution's keys lead back to what its first attempt held in memory. */
  ghost predicate Linked(s: State, x: R.Execution) {
    && x.worker < |s.inflows.workers|
    && x.task.transactionRef == s.inflows.workers[x.worker].payload.transactionRef
    && x.account == s.inflows.workers[x.worker].payload.accountNumber
    && x.rule < |s.rules.rules| && s.rules.rules[x.rule].accountRef == x.account
    && (x.entry.Some? <==> !W.IsCustom(s.inflows.workers[x.worker].payload))
    && (x.entry.Some? ==>
          && Lookup(s, x) == Some(x.task)
          && WS.IsRowOf(s.inflows.ledger[x.entry.value], x.worker, s.inflows.workers[x.worker].payload))
    && (x.entry.None? ==> !x.task.fromLedger && x.task.inflow == 0)
  }

  /** The payloads of the executions that run w created, in order. */
  function PayloadsOf(executions: seq<R.Execution>, w: nat): seq<ReleasePayload> {
    if executions == [] then []
    else
      var x := executions[|executions| - 1];
      PayloadsOf(executions[..|executions| - 1], w) + (if x.worker == w then [x.task.payload] else [])
  }

  /** The release payloads among matched rules, in order. */
  function Releases(matched: seq<Fetched>): seq<ReleasePayload> {
    if matched == [] then []
    else
      var f := matched[|matched| - 1];
      Releases(matched[..|matched| - 1]) + (if f.definition.action.ReleaseFunds? then [f.definition.action.payload] else [])
  }

  /** Run w has created executions for exactly the rules of its plan that it has started. */
  ghost predicate OnPlan(s: State, w: nat)
    requires w < |s.plans|
  {
    s.plans[w].next <= |s.plans[w].matched|
    && PayloadsOf(s.core.executions, w) == Releases(s.plans[w].matched[..s.plans[w].next])
  }

  ghost predicate AllPlansSound(s: State) {
    |s.plans| == |s.inflows.workers| && forall w: nat :: w < |s.plans| ==> PlanSound(s, w)
  }

  ghost predicate AllLinked(s: State) {
    forall k :: 0 <= k < |s.core.executions| ==> Linked(s, s.core.executions[k])
  }

  ghost predicate AllOnPlan(s: State) {
    forall w: nat :: w < |s.plans| ==> OnPlan(s, w)
  }

  /** The worker finds exactly the accounts of the rule tables. */
  ghost predicate AccountsShared(s: State) {
    s.inflows.accounts.Keys == s.rules.accounts.Keys
  }

  ghost predicate InflowInv(s: W.State) {
    WS.Inv(s) && WS.AllFollowed(s)
  }

  ghost predicate LinkInv(s: State) {
    InflowInv(s.inflows) && RB.Wellformed(s.rules) && AccountsShared(s) && AllPlansSound(s) && AllLinked(s) && AllOnPlan(s)
  }

  ghost predicate Inv(s: State) {
    LinkInv(s) && S.CoreInv(s.core) && S.OneWriter(s.core)
  }

  // ----- Definitions and ledger amounts are immutable, so links stay

  ghost predicate Grows(s: State, t: State) {
    RS.Extends(s.rules, t.rules) && WS.Extends(s.inflows, t.inflows)
  }

  lemma FetchedGrows(s: State, t: State, f: Fetched)
    requires Grows(s, t) && FetchedSound(s.rules, f)
    ensures FetchedSound(t.rules, f)
  {
  }

  lemma RecordGrows(s: State, t: State, w: nat, r: Record)
    requires Grows(s, t) && RecordSound(s.inflows, w, r)
    ensures RecordSound(t.inflows, w, r)
  {
    assert WS.SameRow(s.inflows.ledger[r.entry], t.inflows.ledger[r.entry]);
  }

  /** A retry's lookup gives the same result in every later state: rule statuses, execution models and reconciliation
      statuses change, but not what the lookup reads. */
  lemma LookupStable(s: State, t: State, x: R.Execution)
    requires Grows(s, t) && Lookup(s, x).Some?
    ensures Lookup(t, x) == Lookup(s, x)
  {
    assert WS.SameRow(s.inflows.ledger[x.entry.value], t.inflows.ledger[x.entry.value]);
    assert t.rules.rules[x.rule].definition == s.rules.rules[x.rule].definition;
  }

  lemma LinkedGrows(s: State, t: State, x: R.Execution)
    requires Grows(s, t) && Linked(s, x)
    ensures Linked(t, x)
  {
    if x.entry.Some? {
      LookupStable(s, t, x);
      assert WS.SameRow(s.inflows.ledger[x.entry.value], t.inflows.ledger[x.entry.value]);
    }
  }

  lemma PlanGrows(s: State, t: State, w: nat)
    requires Grows(s, t) && w < |s.plans| == |s.inflows.workers| && w < |t.plans| == |t.inflows.workers|
    requires PlanSound(s, w) && t.plans[w] == s.plans[w].(model := t.plans[w].model)
    requires t.inflows.workers[w].pc.Evaluated? ==> t.inflows.workers[w].pc == s.inflows.workers[w].pc
    ensures PlanSound(t, w)
  {
    var plan := s.plans[w];
    forall i | 0 <= i < |plan.matched|
      ensures FetchedSound(t.rules, plan.matched[i])
           && OfAccount(t.rules, plan.matched[i], t.inflows.workers[w].payload.accountNumber)
    {
      FetchedGrows(s, t, plan.matched[i]);
    }
    if plan.record.Some? { RecordGrows(s, t, w, plan.record.value); }
  }

  lemma Unmoved(s: State)
    ensures Grows(s, s)
  {
  }

  // ----- Sums over executions

  lemma PayloadsSnoc(executions: seq<R.Execution>, x: R.Execution, w: nat)
    ensures PayloadsOf(executions + [x], w) == PayloadsOf(executions, w) + (if x.worker == w then [x.task.payload] else [])
  {
    assert (executions + [x])[..|executions|] == executions;
  }

  lemma {:induction false} PayloadsSame(a: seq<R.Execution>, b: seq<R.Execution>, w: nat)
    requires |a| == |b| && forall k :: 0 <= k < |a| ==> S.SameTask(a[k], b[k])
    ensures PayloadsOf(a, w) == PayloadsOf(b, w)
    decreases |a|
  {
    if a == [] {
    } else {
      PayloadsSame(a[..|a| - 1], b[..|a| - 1], w);
    }
  }

  lemma {:induction false} NoPayloads(executions: seq<R.Execution>, w: nat)
    requires forall k :: 0 <= k < |executions| ==> executions[k].worker != w
    ensures PayloadsOf(executions, w) == []
    decreases |executions|
  {
    if executions == [] {
    } else {
      NoPayloads(executions[..|executions| - 1], w);
    }
  }

  lemma ReleasesSnoc(matched: seq<Fetched>, n: nat)
    requires n < |matched|
    ensures Releases(matched[..n + 1])
         == Releases(matched[..n])
            + (if matched[n].definition.action.ReleaseFunds? then [matched[n].definition.action.payload] else [])
  {
    assert matched[..n + 1][..n] == matched[..n];
  }

  /** No run comes to stand right after its evaluation. */
  ghost predicate StillEvaluated(s: W.State, t: W.State) {
    forall w: nat :: w < |s.workers| && w < |t.workers| && t.workers[w].pc.Evaluated? ==> t.workers[w].pc == s.workers[w].pc
  }

  // ----- Each kind of step keeps the links

  /** Executions and plans stay; rules and inflows move on. */
  lemma FrameLinks(s: State, t: State)
    requires LinkInv(s) && Grows(s, t) && t.core.executions == s.core.executions
    requires InflowInv(t.inflows) && RB.Wellformed(t.rules) && |t.inflows.workers| == |s.inflows.workers| == |t.plans|
    requires forall w: nat :: w < |s.plans| ==> t.plans[w] == s.plans[w].(model := t.plans[w].model)
    requires AccountsShared(t) && StillEvaluated(s.inflows, t.inflows)
    ensures LinkInv(t)
  {
    forall w: nat | w < |t.plans| ensures PlanSound(t, w) && OnPlan(t, w) {
      assert PlanSound(s, w) && OnPlan(s, w);
      PlanGrows(s, t, w);
    }
    forall k | 0 <= k < |t.core.executions| ensures Linked(t, t.core.executions[k]) {
      LinkedGrows(s, t, s.core.executions[k]);
    }
  }

  lemma RulesKeepLinks(s: State, a: RS.Action)
    requires LinkInv(s)
    ensures Grows(s, Rules(s, a)) && LinkInv(Rules(s, a))
    ensures Rules(s, a).core == s.core
  {
    var t := Rules(s, a);
    RS.StepExtends(s.rules, a);
    RB.StepKeepsWellformed(s.rules, a);
    if Opened(s.rules, a).Some? {
      var open := W.OpenAccount(Opened(s.rules, a).value);
      WS.StepExtends(s.inflows, open);
      WS.StepKeepsInv(s.inflows, open);
      WS.StepFollows(s.inflows, open);
    }
    AccountsOpen(s.rules, a);
    FrameLinks(s, t);
  }

  /** An account appears exactly when its provisioning inserts it. */
  lemma AccountsOpen(s: RS.State, a: RS.Action)
    ensures RS.After(s, a).accounts.Keys
         == s.accounts.Keys + if Opened(s, a).Some? then {Opened(s, a).value} else {}
  {
    if a.Work? && a.h < |s.handlers| {
      match s.handlers[a.h]
      case Provisioning(_, _, _, _, _, _) =>
      case Creating(_, _, _, _) =>
      case _ =>
    }
  }

  lemma DeliveryKeepsLinks(s: State, p: W.Payload)
    requires LinkInv(s)
    ensures Grows(s, Inflow(s, W.Deliver(p))) && LinkInv(Inflow(s, W.Deliver(p)))
  {
    var t, a := Inflow(s, W.Deliver(p)), W.Deliver(p);
    var n := |s.plans|;
    WS.StepExtends(s.inflows, a);
    WS.StepKeepsInv(s.inflows, a);
    WS.StepFollows(s.inflows, a);
    forall w: nat | w < |t.plans| ensures PlanSound(t, w) && OnPlan(t, w) {
      if w < n {
        assert PlanSound(s, w) && OnPlan(s, w);
        assert t.plans[w] == s.plans[w];
        PlanGrows(s, t, w);
      } else {
        NewRunUnplanned(s);
        assert t.plans[w].matched[..0] == [];
      }
    }
    forall k | 0 <= k < |t.core.executions| ensures Linked(t, t.core.executions[k]) {
      LinkedGrows(s, t, s.core.executions[k]);
    }
  }

  lemma NewRunUnplanned(s: State)
    requires AllLinked(s)
    ensures PayloadsOf(s.core.executions, |s.inflows.workers|) == []
  {
    forall k | 0 <= k < |s.core.executions| ensures s.core.executions[k].worker != |s.inflows.workers| {
      assert Linked(s, s.core.executions[k]);
    }
    NoPayloads(s.core.executions, |s.inflows.workers|);
  }

  lemma AccountsStayShared(s: State, a: W.Action)
    requires AccountsShared(s) && !a.OpenAccount?
    ensures W.After(s.inflows, a).accounts.Keys == s.inflows.accounts.Keys
  {
    if a.Work? && a.worker < |s.inflows.workers| {
      match s.inflows.workers[a.worker].pc
      case Found(_) =>
      case _ =>
    }
  }

  lemma WorkersUnchanged(s: W.State, a: W.Action)
    requires !a.Deliver?
    ensures |W.After(s, a).workers| == |s.workers|
  {
    if a.Work? && a.worker < |s.workers| { WS.AdvanceMoves(s, a.worker, a.matched); }
  }

  /** Only an evaluation brings a run there, and only `Evaluate` evaluates. */
  lemma OnlyEvaluationEvaluates(s: W.State, a: W.Action)
    requires a.Work? && a.worker < |s.workers| ==> !s.workers[a.worker].pc.Recorded?
    ensures StillEvaluated(s, W.After(s, a))
  {
    if a.Work? && a.worker < |s.workers| {
      WS.AdvanceMoves(s, a.worker, a.matched);
      match s.workers[a.worker].pc
      case Found(_) =>
      case Claimed =>
      case _ =>
    }
  }

  lemma InflowKeepsLinks(s: State, a: W.Action)
    requires LinkInv(s)
    ensures Grows(s, Inflow(s, a)) && LinkInv(Inflow(s, a))
    ensures Inflow(s, a).core == s.core
  {
    Unmoved(s);
    if a.Deliver? {
      DeliveryKeepsLinks(s, a.payload);
    } else if Inflow(s, a) != s {
      var t := Inflow(s, a);
      WS.StepExtends(s.inflows, a);
      WS.StepKeepsInv(s.inflows, a);
      WS.StepFollows(s.inflows, a);
      WorkersUnchanged(s.inflows, a);
      OnlyEvaluationEvaluates(s.inflows, a);
      assert t.inflows == W.After(s.inflows, a);
      AccountsStayShared(s, a);
      FrameLinks(s, t);
    }
  }

  lemma FetchIsSound(rules: RS.State, account: string, fetch: seq<nat>, i: nat)
    requires RB.Wellformed(rules) && IsFetch(rules, account, fetch) && i < |fetch|
    ensures FetchedSound(rules, FetchOne(rules, fetch[i])) && OfAccount(rules, FetchOne(rules, fetch[i]), account)
  {
    assert IsActiveRule(rules, account, fetch[i]);
  }

  lemma {:induction false} MatchedAreFetched(fetched: seq<Fetched>, e: Event)
    ensures forall i :: 0 <= i < |MatchedRules(fetched, e)| ==> MatchedRules(fetched, e)[i] in fetched
    decreases |fetched|
  {
    if fetched == [] {
    } else {
      var n := |fetched| - 1;
      MatchedAreFetched(fetched[..n], e);
      assert fetched == fetched[..n] + [fetched[n]];
    }
  }

  lemma FiredAreSound(s: State, w: nat, fetch: seq<nat>)
    requires LinkInv(s) && Evaluates(s, w) && IsFetch(s.rules, s.inflows.workers[w].payload.accountNumber, fetch)
    ensures var fired := Fired(s.plans[w].model, FetchedRules(s.rules, fetch), EventFor(s, w));
      forall i :: 0 <= i < |fired| ==>
        FetchedSound(s.rules, fired[i]) && OfAccount(s.rules, fired[i], s.inflows.workers[w].payload.accountNumber)
  {
    var fetched := FetchedRules(s.rules, fetch);
    var fired := Fired(s.plans[w].model, fetched, EventFor(s, w));
    MatchedAreFetched(fetched, EventFor(s, w));
    forall i | 0 <= i < |fired|
      ensures FetchedSound(s.rules, fired[i]) && OfAccount(s.rules, fired[i], s.inflows.workers[w].payload.accountNumber)
    {
      assert fired[i] in fetched;
      var j :| 0 <= j < |fetched| && fetched[j] == fired[i];
      FetchIsSound(s.rules, s.inflows.workers[w].payload.accountNumber, fetch, j);
    }
  }

  lemma EvaluationKeepsLinks(s: State, w: nat, fetch: seq<nat>)
    requires LinkInv(s)
    ensures Grows(s, EvaluateRules(s, w, fetch)) && LinkInv(EvaluateRules(s, w, fetch))
    ensures EvaluateRules(s, w, fetch).core == s.core
  {
    Unmoved(s);
    if Evaluates(s, w) && IsFetch(s.rules, s.inflows.workers[w].payload.accountNumber, fetch) {
      var fired := Fired(s.plans[w].model, FetchedRules(s.rules, fetch), EventFor(s, w));
      FiredAreSound(s, w, fetch);
      EvaluationMoves(s, w, fetch, fired);
    }
  }

  lemma EvaluationMoves(s: State, w: nat, fetch: seq<nat>, fired: seq<Fetched>)
    requires LinkInv(s) && Evaluates(s, w) && IsFetch(s.rules, s.inflows.workers[w].payload.accountNumber, fetch)
    requires fired == Fired(s.plans[w].model, FetchedRules(s.rules, fetch), EventFor(s, w))
    requires forall i :: 0 <= i < |fired| ==>
      FetchedSound(s.rules, fired[i]) && OfAccount(s.rules, fired[i], s.inflows.workers[w].payload.accountNumber)
    ensures Grows(s, EvaluateRules(s, w, fetch)) && LinkInv(EvaluateRules(s, w, fetch))
  {
    var t := EvaluateRules(s, w, fetch);
    var a := W.Work(w, fired != []);
    assert t.inflows == W.After(s.inflows, a);
    WS.StepExtends(s.inflows, a);
    WS.StepKeepsInv(s.inflows, a);
    WS.StepFollows(s.inflows, a);
    WS.AdvanceMoves(s.inflows, w, fired != []);
    assert !WS.BeforeEvaluation(t.inflows.workers[w].pc);
    PlanSetLinks(s, t, w, fired);
  }

  /** Run w gets its plan, before which it had none. */
  lemma PlanSetLinks(s: State, t: State, w: nat, fired: seq<Fetched>)
    requires LinkInv(s) && Grows(s, t) && InflowInv(t.inflows) && w < |s.plans| && |t.inflows.workers| == |s.inflows.workers|
    requires WS.BeforeEvaluation(s.inflows.workers[w].pc) && !WS.BeforeEvaluation(t.inflows.workers[w].pc)
    requires t.inflows.workers[w].pc.Evaluated? ==> (t.inflows.workers[w].pc.matched <==> fired != [])
    requires forall v: nat :: v < |s.inflows.workers| && v != w ==> t.inflows.workers[v] == s.inflows.workers[v]
    requires t.inflows.accounts == s.inflows.accounts
    requires t.rules == s.rules && t.core == s.core && t.plans == s.plans[w := s.plans[w].(matched := fired)]
    requires forall i :: 0 <= i < |fired| ==>
      FetchedSound(s.rules, fired[i]) && OfAccount(s.rules, fired[i], s.inflows.workers[w].payload.accountNumber)
    ensures LinkInv(t)
  {
    assert PlanSound(s, w) && OnPlan(s, w);
    assert s.plans[w].matched == [];
    forall v: nat | v < |t.plans| ensures PlanSound(t, v) && OnPlan(t, v) {
      if v != w {
        assert PlanSound(s, v) && OnPlan(s, v);
        PlanGrows(s, t, v);
      } else {
        assert t.plans[w].matched[..0] == s.plans[w].matched[..0];
        if s.plans[w].record.Some? { RecordGrows(s, t, w, s.plans[w].record.value); }
      }
    }
    forall k | 0 <= k < |t.core.executions| ensures Linked(t, t.core.executions[k]) {
      LinkedGrows(s, t, s.core.executions[k]);
    }
  }

  /** Only run w's plan changes. */
  lemma PlanUpdateKeepsLinks(s: State, w: nat, plan: Plan)
    requires LinkInv(s) && w < |s.plans|
    requires PlanSound(SetPlan(s, w, plan), w) && OnPlan(SetPlan(s, w, plan), w)
    ensures LinkInv(SetPlan(s, w, plan))
  {
    var t := SetPlan(s, w, plan);
    Unmoved(s);
    forall v: nat | v < |t.plans| ensures PlanSound(t, v) && OnPlan(t, v) {
      if v != w {
        assert PlanSound(s, v) && OnPlan(s, v);
        PlanGrows(s, t, v);
      }
    }
    forall k | 0 <= k < |t.core.executions| ensures Linked(t, t.core.executions[k]) {
      LinkedGrows(s, t, s.core.executions[k]);
    }
  }

  /** The row with the run's transactionRef is the run's own. */
  lemma RowIsOwn(s: W.State, w: nat, i: nat)
    requires WS.Inv(s) && w < |s.workers| && s.workers[w].pc == W.Evaluated(true)
    requires i < |s.ledger| && s.ledger[i].transactionRef == s.workers[w].payload.transactionRef
    ensures WS.IsRowOf(s.ledger[i], w, s.workers[w].payload)
  {
    assert WS.Positioned(s, w);
    var j :| 0 <= j < |s.ledger| && WS.IsRowOf(s.ledger[j], w, s.workers[w].payload);
    assert i == j;
  }

  lemma LoadKeepsLinks(s: State, w: nat)
    requires LinkInv(s)
    ensures Grows(s, LoadRow(s, w)) && LinkInv(LoadRow(s, w))
    ensures LoadRow(s, w).core == s.core
  {
    Unmoved(s);
    var t := LoadRow(s, w);
    if t != s {
      var i := RowOf(s.inflows.ledger, s.inflows.workers[w].payload.transactionRef).value;
      RowIsOwn(s.inflows, w, i);
      assert PlanSound(s, w) && OnPlan(s, w);
      PlanUpdateKeepsLinks(s, w, t.plans[w]);
    }
  }

  lemma FirstTaskLinked(s: State, w: nat, f: Fetched, x: R.Execution)
    requires LinkInv(s) && CanBegin(s, w) && f.definition.action.ReleaseFunds? && FetchedSound(s.rules, f)
    requires OfAccount(s.rules, f, s.inflows.workers[w].payload.accountNumber)
    requires x.account == s.inflows.workers[w].payload.accountNumber
    requires x.rule == f.rule && x.entry == EntryFor(s, w) && x.worker == w && x.task == FirstTask(s, w, f)
    ensures Linked(s, x) && (x.entry.Some? <==> x.task.fromLedger)
  {
    assert PlanSound(s, w);
  }

  /** A rule with another action is skipped. */
  lemma SkipKeepsLinks(s: State, w: nat)
    requires LinkInv(s) && w < |s.plans| && s.plans[w].next < |s.plans[w].matched|
    requires !s.plans[w].matched[s.plans[w].next].definition.action.ReleaseFunds?
    ensures LinkInv(SetPlan(s, w, s.plans[w].(next := s.plans[w].next + 1)))
  {
    assert PlanSound(s, w) && OnPlan(s, w);
    ReleasesSnoc(s.plans[w].matched, s.plans[w].next);
    PlanUpdateKeepsLinks(s, w, s.plans[w].(next := s.plans[w].next + 1));
  }

  /** The new execution is on the plan of its run. */
  lemma BegunOnPlan(s: State, t: State, w: nat, f: Fetched, x: R.Execution, v: nat)
    requires v < |s.plans| == |t.plans| && w < |s.plans| && OnPlan(s, v) && s.plans[w].next < |s.plans[w].matched|
    requires f == s.plans[w].matched[s.plans[w].next] && f.definition.action.ReleaseFunds?
    requires t.plans == s.plans[w := s.plans[w].(next := s.plans[w].next + 1)]
    requires t.core.executions == s.core.executions + [x] && x.worker == w && x.task.payload == f.definition.action.payload
    ensures OnPlan(t, v)
  {
    PayloadsSnoc(s.core.executions, x, v);
    if v == w { ReleasesSnoc(s.plans[w].matched, s.plans[w].next); }
  }

  lemma BegunLinks(s: State, t: State, w: nat, f: Fetched, x: R.Execution)
    requires LinkInv(s) && w < |s.plans| && s.plans[w].next < |s.plans[w].matched|
    requires f == s.plans[w].matched[s.plans[w].next] && f.definition.action.ReleaseFunds?
    requires t == SetPlan(s, w, s.plans[w].(next := s.plans[w].next + 1)).(core := t.core)
    requires t.core.executions == s.core.executions + [x] && x.worker == w && x.task.payload == f.definition.action.payload
    requires Linked(s, x)
    ensures LinkInv(t)
  {
    Unmoved(s);
    forall k | 0 <= k < |t.core.executions| ensures Linked(t, t.core.executions[k]) {
      if k < |s.core.executions| { assert Linked(s, s.core.executions[k]); }
      LinkedGrows(s, t, t.core.executions[k]);
    }
    forall v: nat | v < |t.plans| ensures PlanSound(t, v) && OnPlan(t, v) {
      assert PlanSound(s, v) && OnPlan(s, v);
      BegunOnPlan(s, t, w, f, x, v);
    }
  }

  lemma BeginExecution(s: State, w: nat)
    requires Inv(s) && CanBegin(s, w) && s.plans[w].matched[s.plans[w].next].definition.action.ReleaseFunds?
    ensures Inv(Begin(s, w)) && Grows(s, Begin(s, w))
  {
    var f := s.plans[w].matched[s.plans[w].next];
    var account := s.inflows.workers[w].payload.accountNumber;
    var entry, task := EntryFor(s, w), FirstTask(s, w, f);
    var x := R.Execution(f.rule, entry, account, R.PENDING, R.Acting(0, task), None, w, task, false);
    Unmoved(s);
    assert PlanSound(s, w);
    FirstTaskLinked(s, w, f, x);
    S.BeginKeepsInv(s.core, f.rule, entry, account, w, task);
    S.BeginKeepsOneWriter(s.core, f.rule, entry, account, w, task);
    BegunLinks(s, Begin(s, w), w, f, x);
  }

  lemma BeginKeepsInv(s: State, w: nat)
    requires Inv(s)
    ensures Inv(Begin(s, w)) && Grows(s, Begin(s, w))
  {
    Unmoved(s);
    if CanBegin(s, w) {
      if s.plans[w].matched[s.plans[w].next].definition.action.ReleaseFunds? {
        BeginExecution(s, w);
      } else {
        SkipKeepsLinks(s, w);
      }
    }
  }

  /** Steps of Release change no key, no task and no run. */
  lemma ReleaseKeepsLinks(s: State, step: R.Step)
    requires LinkInv(s)
    ensures LinkInv(s.(core := R.After(s.core, step)))
  {
    var t := s.(core := R.After(s.core, step));
    S.StepKeepsTasks(s.core, step);
    forall k | 0 <= k < |t.core.executions| ensures Linked(t, t.core.executions[k]) {
      assert Linked(s, s.core.executions[k]) && S.SameTask(s.core.executions[k], t.core.executions[k]);
    }
    forall w: nat | w < |t.plans| ensures PlanSound(t, w) && OnPlan(t, w) {
      assert PlanSound(s, w) && OnPlan(s, w);
      PayloadsSame(s.core.executions, t.core.executions, w);
    }
  }

  // ----- All steps, all runs

  lemma ReleaseStepKeepsInv(s: State, a: Action, step: R.Step)
    requires Inv(s) && StepOf(s, a) == Some(step)
    ensures Inv(s.(core := R.After(s.core, step)))
  {
    ReleaseKeepsLinks(s, step);
    if step.DoStartRetry? && step.execution < |s.core.executions| {
      assert Linked(s, s.core.executions[step.execution]);
    }
    S.StepKeepsInv(s.core, step);
    S.StepKeepsOneWriter(s.core, step);
  }

  /** Steps that leave treasury and executions alone. */
  lemma TablesKeepInv(s: State, a: Action)
    requires Inv(s) && (a.ChangeRules? || a.Worker? || a.DoEvaluate? || a.DoLoadRow?)
    ensures LinkInv(After(s, a)) && After(s, a).core == s.core && Grows(s, After(s, a))
  {
    match a
    case ChangeRules(step) => RulesKeepLinks(s, step);
    case Worker(step) => InflowKeepsLinks(s, step);
    case DoEvaluate(w, fetch) => EvaluationKeepsLinks(s, w, fetch);
    case DoLoadRow(w) => LoadKeepsLinks(s, w);
  }

  lemma StepKeepsInv(s: State, a: Action)
    requires Inv(s)
    ensures Inv(After(s, a)) && Grows(s, After(s, a))
  {
    match a
    case DoBegin(w) => BeginKeepsInv(s, w);
    case Execution(_) => ExecutionKeepsInv(s, a);
    case Retry(_) => ExecutionKeepsInv(s, a);
    case _ => TablesKeepInv(s, a);
  }

  lemma ExecutionKeepsInv(s: State, a: Action)
    requires Inv(s) && (a.Execution? || a.Retry?)
    ensures Inv(After(s, a)) && Grows(s, After(s, a))
  {
    Unmoved(s);
    if StepOf(s, a).Some? { ReleaseStepKeepsInv(s, a, StepOf(s, a).value); }
  }

  lemma InvNext(actions: seq<Action>, n: nat)
    requires n < |actions| && Inv(At(actions, n))
    ensures Inv(At(actions, n + 1))
  {
    AtStep(actions, n);
    StepKeepsInv(At(actions, n), actions[n]);
  }

  lemma {:induction false} RunKeepsInv(actions: seq<Action>, n: nat)
    requires n <= |actions|
    ensures Inv(At(actions, n))
    decreases n
  {
    if n == 0 {
    } else {
      RunKeepsInv(actions, n - 1);
      InvNext(actions, n - 1);
    }
  }
}
