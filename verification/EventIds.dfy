/** What an eventId guarantees: for which sets of payloads that carry it every run evaluates rules at most once. */
module EventIds {
  import opened AccountStatuses
  import opened AccountLedger
  import opened InflowWorker
  import opened InflowSafety

  /** The two deliveries meet at a unique key before they evaluate: the eventId for custom events, the transactionRef
      for inflows. */
  predicate Gated(p: Payload, q: Payload) {
    || (IsCustom(p) && IsCustom(q))
    || (!IsCustom(p) && !IsCustom(q) && p.transactionRef == q.transactionRef)
  }

  /** Whatever is delivered with this eventId is one of the payloads, any number of times; other events are free. */
  ghost predicate DeliversOnly(actions: seq<Action>, eventId: string, payloads: set<Payload>) {
    forall i :: 0 <= i < |actions| && actions[i].Deliver? && actions[i].payload.eventId == eventId ==>
      actions[i].payload in payloads
  }

  ghost predicate EvaluatedAtMostOnce(s: State, eventId: string) {
    forall i, j :: 0 <= i < j < |s.evaluations| ==>
      !(s.evaluations[i].payload.eventId == eventId && s.evaluations[j].payload.eventId == eventId)
  }

  // ----- Gated payloads are evaluated at most once

  ghost predicate Delivered(actions: seq<Action>, p: Payload) {
    exists i :: 0 <= i < |actions| && actions[i] == Deliver(p)
  }

  lemma NewWorkerDelivered(s: State, a: Action, w: nat)
    requires w < |After(s, a).workers|
    ensures w < |s.workers| ==> After(s, a).workers[w].payload == s.workers[w].payload
    ensures w >= |s.workers| ==> a == Deliver(After(s, a).workers[w].payload)
  {
    StepExtends(s, a);
    if a.Work? && a.worker < |s.workers| { AdvanceMoves(s, a.worker, a.matched); }
  }

  lemma {:induction false} PayloadsDelivered(s: State, actions: seq<Action>, w: nat)
    requires w < |Run(s, actions).workers|
    ensures var p := Run(s, actions).workers[w].payload;
      (w < |s.workers| && p == s.workers[w].payload) || Delivered(actions, p)
    decreases |actions|
  {
    if actions == [] {
    } else {
      var t := After(s, actions[0]);
      var p := Run(s, actions).workers[w].payload;
      PayloadsDelivered(t, actions[1..], w);
      if Delivered(actions[1..], p) {
        var i :| 0 <= i < |actions[1..]| && actions[1..][i] == Deliver(p);
        assert actions[i + 1] == Deliver(p);
      } else {
        NewWorkerDelivered(s, actions[0], w);
      }
    }
  }

  lemma EvaluationDelivered(actions: seq<Action>, i: nat)
    requires i < |Run(INITIAL, actions).evaluations|
    ensures Delivered(actions, Run(INITIAL, actions).evaluations[i].payload)
  {
    var t := Run(INITIAL, actions);
    RunKeepsInv(INITIAL, actions);
    assert Justified(t, t.evaluations[i]);
    PayloadsDelivered(INITIAL, actions, t.evaluations[i].worker);
  }

  lemma GatedAtMostOnce(actions: seq<Action>, eventId: string, payloads: set<Payload>)
    requires DeliversOnly(actions, eventId, payloads) && forall p, q :: p in payloads && q in payloads ==> Gated(p, q)
    ensures EvaluatedAtMostOnce(Run(INITIAL, actions), eventId)
  {
    var t := Run(INITIAL, actions);
    forall i, j | 0 <= i < j < |t.evaluations|
      ensures !(t.evaluations[i].payload.eventId == eventId && t.evaluations[j].payload.eventId == eventId)
    {
      EvaluationDelivered(actions, i);
      EvaluationDelivered(actions, j);
      RulesEvaluatedAtMostOnce(actions, i, j);
    }
  }

  // ----- Any other pair is evaluated twice in some run

  /** Both runs read the table and their account before either goes on; then one finishes evaluating, then the other. */
  function BothEvaluate(p: Payload, q: Payload): seq<Action> {
    [OpenAccount(p.accountNumber), OpenAccount(q.accountNumber), Deliver(p), Deliver(q)]
    + [Work(0, true), Work(1, true), Work(0, true), Work(1, true)]
    + [Work(0, true), Work(0, true), Work(1, true), Work(1, true)]
  }

  /** The state before action n. */
  function At(run: seq<Action>, n: nat): State
    requires n <= |run|
  {
    Run(INITIAL, run[..n])
  }

  lemma AtStep(run: seq<Action>, n: nat)
    requires n < |run|
    ensures At(run, n + 1) == After(At(run, n), run[n])
  {
    RunSnoc(INITIAL, run[..n], run[n]);
    assert run[..n] + [run[n]] == run[..n + 1];
  }

  /** Two runs at these positions, and nothing written yet. */
  predicate Reading(s: State, p: Payload, q: Payload, pc: Pc, pc': Pc) {
    && s.workers == [Worker(p, pc), Worker(q, pc')] && s.ledger == [] && s.processed == map[] && s.evaluations == []
    && p.accountNumber in s.accounts && s.accounts[p.accountNumber] == ACTIVE
    && q.accountNumber in s.accounts && s.accounts[q.accountNumber] == ACTIVE
  }

  lemma BothStarted(p: Payload, q: Payload)
    ensures Reading(At(BothEvaluate(p, q), 4), p, q, Started, Started)
  {
    var run := BothEvaluate(p, q);
    AtStep(run, 0);
    AtStep(run, 1);
    AtStep(run, 2);
    AtStep(run, 3);
  }

  lemma BothFound(p: Payload, q: Payload)
    ensures Reading(At(BothEvaluate(p, q), 8), p, q, Found(ACTIVE), Found(ACTIVE))
  {
    var run := BothEvaluate(p, q);
    BothStarted(p, q);
    AtStep(run, 4);
    AtStep(run, 5);
    assert Reading(At(run, 6), p, q, NotSeen, NotSeen);
    AtStep(run, 6);
    AtStep(run, 7);
  }

  /** The run's key is not taken. */
  ghost predicate KeyFree(s: State, p: Payload) {
    if IsCustom(p) then p.eventId !in s.processed else !HasRef(s.ledger, p.transactionRef)
  }

  /** From an ACTIVE account on, two accesses evaluate, unless the run's key is taken. */
  lemma EvaluatesNext(s: State, w: nat)
    requires w < |s.workers| && s.workers[w].pc == Found(ACTIVE)
    requires KeyFree(s, s.workers[w].payload)
    ensures var t, p := After(After(s, Work(w, true)), Work(w, true)), s.workers[w].payload;
      && |t.evaluations| == |s.evaluations| + 1 && t.evaluations[..|s.evaluations|] == s.evaluations
      && t.evaluations[|s.evaluations|].payload == p
      && |t.workers| == |s.workers| && (forall v :: 0 <= v < |s.workers| && v != w ==> t.workers[v] == s.workers[v])
      && (if IsCustom(p) then t.ledger == s.ledger
          else t.processed == s.processed && |t.ledger| == |s.ledger| + 1 && t.ledger[..|s.ledger|] == s.ledger
               && t.ledger[|s.ledger|].transactionRef == p.transactionRef)
  {
    var s1 := After(s, Work(w, true));
    if IsCustom(s.workers[w].payload) {
      assert s1.workers[w].pc == Claimed && s1.ledger == s.ledger;
    } else {
      assert s1.workers[w].pc.Recorded? && s1.processed == s.processed;
    }
  }

  /** Evaluating p takes no key of an ungated q. */
  lemma OtherKeyFree(s: State, p: Payload, q: Payload)
    requires Reading(s, p, q, Found(ACTIVE), Found(ACTIVE)) && !Gated(p, q)
    ensures var t := After(After(s, Work(0, true)), Work(0, true));
      && |t.evaluations| == 1 && t.evaluations[0].payload == p
      && |t.workers| == 2 && t.workers[1] == Worker(q, Found(ACTIVE)) && KeyFree(t, q)
  {
    EvaluatesNext(s, 0);
    var t := After(After(s, Work(0, true)), Work(0, true));
    if !IsCustom(q) && !IsCustom(p) {
      assert |t.ledger| == 1 && t.ledger[0].transactionRef == p.transactionRef;
    }
  }

  lemma FirstEvaluated(p: Payload, q: Payload)
    requires !Gated(p, q)
    ensures var t := At(BothEvaluate(p, q), 10);
      && |t.evaluations| == 1 && t.evaluations[0].payload == p
      && |t.workers| == 2 && t.workers[1] == Worker(q, Found(ACTIVE)) && KeyFree(t, q)
  {
    var run := BothEvaluate(p, q);
    BothFound(p, q);
    AtStep(run, 8);
    AtStep(run, 9);
    OtherKeyFree(At(run, 8), p, q);
  }

  lemma UngatedEvaluatedTwice(p: Payload, q: Payload)
    requires p.eventId == q.eventId && !Gated(p, q)
    ensures !EvaluatedAtMostOnce(Run(INITIAL, BothEvaluate(p, q)), p.eventId)
  {
    var run := BothEvaluate(p, q);
    FirstEvaluated(p, q);
    var t, u := At(run, 10), At(run, 12);
    AtStep(run, 10);
    AtStep(run, 11);
    EvaluatesNext(t, 1);
    assert run[..12] == run;
    assert u.evaluations[..1][0] == t.evaluations[0];
    assert u.evaluations[0].payload == p && u.evaluations[1].payload == q;
  }

  /** For any set of payloads with one eventId: every run that delivers the eventId with these payloads only evaluates
      it at most once, if and only if any two of them are both custom events, or both inflows with one
      transactionRef. */
  lemma EventIdGatedExactlyWhen(eventId: string, payloads: set<Payload>)
    requires forall p :: p in payloads ==> p.eventId == eventId
    ensures (forall actions :: DeliversOnly(actions, eventId, payloads) ==> EvaluatedAtMostOnce(Run(INITIAL, actions), eventId))
            <==> (forall p, q :: p in payloads && q in payloads ==> Gated(p, q))
  {
    if forall p, q :: p in payloads && q in payloads ==> Gated(p, q) {
      forall actions | DeliversOnly(actions, eventId, payloads) ensures EvaluatedAtMostOnce(Run(INITIAL, actions), eventId) {
        GatedAtMostOnce(actions, eventId, payloads);
      }
    } else {
      var p, q :| p in payloads && q in payloads && !Gated(p, q);
      UngatedEvaluatedTwice(p, q);
      assert DeliversOnly(BothEvaluate(p, q), eventId, payloads);
    }
  }
}
