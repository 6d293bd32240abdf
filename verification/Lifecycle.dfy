/** Account status under every writer: manual override, closing, and the status actions of rules. No writer runs
    in a transaction: each reads the status, and writes later without looking again. */
module Lifecycle {
  import opened Wrappers
  import opened AccountStatuses
  import opened RuleEngine
  import R = Release

  predicate Terminal(status: AccountStatus) {
    status == EXPIRED || status == CLOSED
  }

  datatype Request =
    | Override(target: AccountStatus)   // PATCH status
    | Closing                           // DELETE account; Nomba is called between read and write
    | StatusRule(action: RuleAction)    // a matched rule

  /** What a request that has read `seen` goes on to write; None when a guard stops it. */
  function Target(q: Request, seen: AccountStatus): Option<AccountStatus> {
    match q
    case Override(target) =>
      if target == CLOSED || target == EXPIRED then None
      else if seen == CLOSED || seen == EXPIRED then None
      else if (seen == ACTIVE && target == SUSPENDED) || (seen == SUSPENDED && target == ACTIVE) then Some(target)
      else None
    case Closing => if seen == CLOSED || seen == EXPIRED then None else Some(CLOSED)
    case StatusRule(SuspendAccount) => if seen == ACTIVE then Some(SUSPENDED) else None
    case StatusRule(ExpireAccount) => if seen == ACTIVE || seen == SUSPENDED then Some(EXPIRED) else None
    case StatusRule(ReactivateAccount) => if seen == SUSPENDED then Some(ACTIVE) else None
    case StatusRule(_) => None
  }

  // ----- Interleaved requests

  datatype Progress =
    | Waiting
    | Seen(status: AccountStatus)       // the status was read and the guards passed
    | Confirmed(status: AccountStatus)  // closing: Nomba has expired the virtual account
    | Finished

  datatype InFlight = InFlight(request: Request, progress: Progress)

  /** One account and the requests that concern it. */
  datatype State = State(status: AccountStatus, requests: seq<InFlight>)

  const INITIAL := State(ACTIVE, [])

  datatype Action =
    | Arrive(request: Request)
    | Read(h: nat)
    | CallNomba(h: nat, confirms: bool)
    | Write(h: nat)
    | Crash(h: nat)

  function Goto(s: State, h: nat, p: Progress): State
    requires h < |s.requests|
  {
    s.(requests := s.requests[h := s.requests[h].(progress := p)])
  }

  /** The request's next access is its write. */
  predicate Due(s: State, h: nat) {
    && h < |s.requests|
    && if s.requests[h].request.Closing? then s.requests[h].progress.Confirmed? else s.requests[h].progress.Seen?
  }

  function After(s: State, a: Action): State {
    match a
    case Arrive(q) => s.(requests := s.requests + [InFlight(q, Waiting)])
    case Read(h) =>
      if h < |s.requests| && s.requests[h].progress.Waiting?
      then Goto(s, h, if Target(s.requests[h].request, s.status).Some? then Seen(s.status) else Finished)
      else s
    case CallNomba(h, confirms) =>
      if h < |s.requests| && s.requests[h].request.Closing? && s.requests[h].progress.Seen?
      then Goto(s, h, if confirms then Confirmed(s.requests[h].progress.status) else Finished)
      else s
    case Write(h) =>
      if Due(s, h) && Target(s.requests[h].request, s.requests[h].progress.status).Some?
      then Goto(s, h, Finished).(status := Target(s.requests[h].request, s.requests[h].progress.status).value)
      else s
    case Crash(h) => if h < |s.requests| then Goto(s, h, Finished) else s
  }

  function Run(s: State, actions: seq<Action>): State
    decreases |actions|
  {
    if actions == [] then s else After(Run(s, actions[..|actions| - 1]), actions[|actions| - 1])
  }

  lemma RunSnoc(s: State, actions: seq<Action>, a: Action)
    ensures Run(s, actions + [a]) == After(Run(s, actions), a)
  {
    assert (actions + [a])[..|actions|] == actions;
  }

  /** The state before action n of a run. */
  function At(actions: seq<Action>, n: nat): State
    requires n <= |actions|
  {
    Run(INITIAL, actions[..n])
  }

  lemma AtStep(actions: seq<Action>, n: nat)
    requires n < |actions|
    ensures At(actions, n + 1) == After(At(actions, n), actions[n])
  {
    assert actions[..n + 1][..n] == actions[..n];
  }

  // ----- A request in flight has read the status earlier

  predicate Remembers(f: InFlight, seen: AccountStatus) {
    f.progress == Seen(seen) || f.progress == Confirmed(seen)
  }

  /** At step i request h, then waiting, read the status and its guards passed. */
  ghost predicate ReadAt(actions: seq<Action>, i: nat, h: nat, q: Request) {
    && i < |actions| && actions[i] == Read(h)
    && h < |At(actions, i).requests| && At(actions, i).requests[h] == InFlight(q, Waiting)
    && Target(q, At(actions, i).status).Some?
  }

  lemma {:induction false} ReadBefore(actions: seq<Action>, n: nat, h: nat) returns (i: nat)
    requires n <= |actions| && h < |At(actions, n).requests|
    requires var f := At(actions, n).requests[h]; f.progress.Seen? || f.progress.Confirmed?
    ensures i < n && ReadAt(actions, i, h, At(actions, n).requests[h].request)
    ensures Remembers(At(actions, n).requests[h], At(actions, i).status)
    decreases n
  {
    var m := n - 1;
    AtStep(actions, m);
    if actions[m] == Read(h) && At(actions, m).requests[h].progress.Waiting? {
      i := m;
    } else {
      i := ReadBefore(actions, m, h);
    }
  }

  /** At step j the account goes from an open to a terminal status. */
  ghost predicate EndsAt(actions: seq<Action>, j: nat) {
    j < |actions| && !Terminal(At(actions, j).status) && Terminal(At(actions, j + 1).status)
  }

  lemma {:induction false} EndedBetween(actions: seq<Action>, i: nat, n: nat) returns (j: nat)
    requires i <= n <= |actions| && !Terminal(At(actions, i).status) && Terminal(At(actions, n).status)
    ensures i <= j < n && EndsAt(actions, j)
    decreases n
  {
    if Terminal(At(actions, n - 1).status) {
      j := EndedBetween(actions, i, n - 1);
    } else {
      j := n - 1;
    }
  }

  // ----- When a terminal status is left

  /** Request h reads an open account at i, the account ends at j, and at n the request still writes what its read
      called for, which is not the status the account has ended in. */
  ghost predicate StaleWrite(actions: seq<Action>, h: nat, i: nat, j: nat, n: nat) {
    && i < j < n < |actions|
    && h < |At(actions, n).requests| && ReadAt(actions, i, h, At(actions, n).requests[h].request)
    && EndsAt(actions, j)
    && actions[n] == Write(h) && Due(At(actions, n), h) && Terminal(At(actions, n).status)
    && Target(At(actions, n).requests[h].request, At(actions, i).status) != Some(At(actions, n).status)
  }

  /** A request reads once: what it remembers is what it read at that step. */
  lemma {:induction false} RemembersItsRead(actions: seq<Action>, i: nat, n: nat, h: nat, q: Request)
    requires i < n <= |actions| && ReadAt(actions, i, h, q)
    ensures h < |At(actions, n).requests|
    ensures var f := At(actions, n).requests[h];
      f.request == q && (Remembers(f, At(actions, i).status) || f.progress == Finished)
    decreases n
  {
    AtStep(actions, n - 1);
    if i == n - 1 {
    } else {
      RemembersItsRead(actions, i, n - 1, h, q);
    }
  }

  /** In every run, at every step: a terminal status is left exactly by a stale write. */
  lemma TerminalLeftExactlyWhen(actions: seq<Action>, n: nat)
    requires n < |actions| && Terminal(At(actions, n).status)
    ensures At(actions, n + 1).status != At(actions, n).status <==>
      exists h: nat, i: nat, j: nat :: StaleWrite(actions, h, i, j, n)
  {
    var s := At(actions, n);
    AtStep(actions, n);
    if At(actions, n + 1).status != s.status {
      var h := actions[n].h;
      var i := ReadBefore(actions, n, h);
      var j := EndedBetween(actions, i, n);
      AtStep(actions, i);
      assert StaleWrite(actions, h, i, j, n);
    }
    if exists h: nat, i: nat, j: nat :: StaleWrite(actions, h, i, j, n) {
      var h: nat, i: nat, j: nat :| StaleWrite(actions, h, i, j, n);
      RemembersItsRead(actions, i, n, h, s.requests[h].request);
    }
  }

  ghost predicate TerminalKept(actions: seq<Action>) {
    forall n: nat, m: nat :: n <= m <= |actions| && Terminal(At(actions, n).status) ==>
      At(actions, m).status == At(actions, n).status
  }

  ghost predicate NoStaleWrite(actions: seq<Action>) {
    forall h: nat, i: nat, j: nat, n: nat :: !StaleWrite(actions, h, i, j, n)
  }

  lemma {:induction false} KeptFrom(actions: seq<Action>, n: nat, m: nat)
    requires NoStaleWrite(actions) && n <= m <= |actions| && Terminal(At(actions, n).status)
    ensures At(actions, m).status == At(actions, n).status
    decreases m
  {
    if n == m {
    } else {
      KeptFrom(actions, n, m - 1);
      TerminalLeftExactlyWhen(actions, m - 1);
    }
  }

  /** Over whole runs, both ways: EXPIRED and CLOSED are absorbing exactly when no write is stale. */
  lemma AbsorbingExactlyWhen(actions: seq<Action>)
    ensures TerminalKept(actions) <==> NoStaleWrite(actions)
  {
    if NoStaleWrite(actions) {
      forall n: nat, m: nat | n <= m <= |actions| && Terminal(At(actions, n).status)
        ensures At(actions, m).status == At(actions, n).status
      {
        KeptFrom(actions, n, m);
      }
    }
    if TerminalKept(actions) && !NoStaleWrite(actions) {
      var h: nat, i: nat, j: nat, n: nat :| StaleWrite(actions, h, i, j, n);
      TerminalLeftExactlyWhen(actions, n);
      assert false;
    }
  }

  /** No status change lies between a request's read and its write. */
  ghost predicate Isolated(actions: seq<Action>) {
    forall h: nat, i: nat, j: nat, n: nat :: i < j < n < |actions| && actions[i] == Read(h) && actions[n] == Write(h) ==>
      At(actions, j).status == At(actions, j + 1).status
  }

  /** When requests do not overlap, the ends are absorbing. */
  lemma AbsorbingWhenIsolated(actions: seq<Action>)
    requires Isolated(actions)
    ensures TerminalKept(actions)
  {
    forall h: nat, i: nat, j: nat, n: nat ensures !StaleWrite(actions, h, i, j, n) {
    }
    AbsorbingExactlyWhen(actions);
  }

  /** The write at step j closes or expires the account. */
  ghost predicate EndingWrite(actions: seq<Action>, j: nat, end: AccountStatus) {
    && j < |actions| && actions[j].Write? && Due(At(actions, j), actions[j].h) && Terminal(end)
    && var f := At(actions, j).requests[actions[j].h]; Target(f.request, f.progress.status) == Some(end)
  }

  lemma {:induction false} OpenUntilEnded(actions: seq<Action>, n: nat)
    requires n <= |actions| && forall j: nat, end :: j < n ==> !EndingWrite(actions, j, end)
    ensures !Terminal(At(actions, n).status)
    decreases n
  {
    if n == 0 {
    } else {
      OpenUntilEnded(actions, n - 1);
      AtStep(actions, n - 1);
      if Terminal(At(actions, n).status) {
        assert EndingWrite(actions, n - 1, At(actions, n).status);
      }
    }
  }

  /** The first write that closes or expires the account decides how it ends, for good unless a write is stale;
      without such a write it stays open. */
  lemma FirstEndingDecides(actions: seq<Action>, j: nat, end: AccountStatus)
    requires EndingWrite(actions, j, end)
    requires forall k: nat, e :: k < j ==> !EndingWrite(actions, k, e)
    ensures !Terminal(At(actions, j).status) && At(actions, j + 1).status == end
    ensures NoStaleWrite(actions) ==> At(actions, |actions|).status == end
  {
    OpenUntilEnded(actions, j);
    AtStep(actions, j);
    if NoStaleWrite(actions) { KeptFrom(actions, j + 1, |actions|); }
  }

  // ----- Three runs that leave a terminal status

  const OVERRIDE_AFTER_CLOSING: seq<Action> := [
    Arrive(Override(SUSPENDED)), Arrive(Closing), Read(0), Read(1), CallNomba(1, true), Write(1), Write(0)]

  /** An override that read ACTIVE reopens an account closed in between. */
  lemma OverrideReopensClosed()
    ensures At(OVERRIDE_AFTER_CLOSING, 6).status == CLOSED && At(OVERRIDE_AFTER_CLOSING, 7).status == SUSPENDED
  {
    var run := OVERRIDE_AFTER_CLOSING;
    AtStep(run, 0);
    AtStep(run, 1);
    AtStep(run, 2);
    AtStep(run, 3);
    assert At(run, 4) == State(ACTIVE, [InFlight(Override(SUSPENDED), Seen(ACTIVE)), InFlight(Closing, Seen(ACTIVE))]);
    AtStep(run, 4);
    AtStep(run, 5);
    AtStep(run, 6);
  }

  const EXPIRY_DURING_CLOSING: seq<Action> := [
    Arrive(Closing), Read(0), Arrive(StatusRule(ExpireAccount)), Read(1), Write(1), CallNomba(0, true), Write(0)]

  /** A rule expires the account while the closing request waits for Nomba; EXPIRED then becomes CLOSED. */
  lemma ClosingOverwritesExpired()
    ensures At(EXPIRY_DURING_CLOSING, 5).status == EXPIRED && At(EXPIRY_DURING_CLOSING, 7).status == CLOSED
  {
    var run := EXPIRY_DURING_CLOSING;
    AtStep(run, 0);
    AtStep(run, 1);
    AtStep(run, 2);
    AtStep(run, 3);
    assert At(run, 4) == State(ACTIVE, [InFlight(Closing, Seen(ACTIVE)), InFlight(StatusRule(ExpireAccount), Seen(ACTIVE))]);
    AtStep(run, 4);
    AtStep(run, 5);
    AtStep(run, 6);
  }

  const RULE_AFTER_CLOSING: seq<Action> := [
    Arrive(StatusRule(SuspendAccount)), Read(0), Arrive(Closing), Read(1), CallNomba(1, true), Write(1), Write(0)]

  /** A suspend rule that read ACTIVE reopens a closed account. */
  lemma RuleReopensClosed()
    ensures At(RULE_AFTER_CLOSING, 6).status == CLOSED && At(RULE_AFTER_CLOSING, 7).status == SUSPENDED
  {
    var run := RULE_AFTER_CLOSING;
    AtStep(run, 0);
    AtStep(run, 1);
    AtStep(run, 2);
    AtStep(run, 3);
    assert At(run, 4) == State(ACTIVE, [InFlight(StatusRule(SuspendAccount), Seen(ACTIVE)), InFlight(Closing, Seen(ACTIVE))]);
    AtStep(run, 4);
    AtStep(run, 5);
    AtStep(run, 6);
  }

  // ----- One undisturbed request

  /** The status after a request that nothing interrupts; `confirms`: Nomba's answer to a closing request. */
  function Settled(status: AccountStatus, q: Request, confirms: bool): AccountStatus {
    if q.Closing? && !confirms then status
    else if Target(q, status).Some? then Target(q, status).value
    else status
  }

  lemma UndisturbedRequest(s: State, q: Request, confirms: bool)
    ensures var h := |s.requests|;
      Run(s, [Arrive(q)] + [Read(h)] + [CallNomba(h, confirms)] + [Write(h)]).status == Settled(s.status, q, confirms)
  {
    var h := |s.requests|;
    var s1 := After(s, Arrive(q));
    var s2 := After(s1, Read(h));
    RunSnoc(s, [], Arrive(q));
    assert [] + [Arrive(q)] == [Arrive(q)];
    RunSnoc(s, [Arrive(q)], Read(h));
    RunSnoc(s, [Arrive(q)] + [Read(h)], CallNomba(h, confirms));
    RunSnoc(s, [Arrive(q)] + [Read(h)] + [CallNomba(h, confirms)], Write(h));
    assert s1.status == s2.status == s.status;
    assert s2.requests[h].progress == if Target(q, s.status).Some? then Seen(s.status) else Finished;
  }

  /** handleStatusChange undisturbed; every other action leaves the status alone. */
  function Apply(status: AccountStatus, action: RuleAction): AccountStatus {
    Settled(status, StatusRule(action), true)
  }

  // ----- A list of matched rules

  /** The status after the worker has executed the matched rules in order. */
  function Fold(status: AccountStatus, rules: seq<RuleDefinition>): AccountStatus {
    if rules == [] then status
    else Apply(Fold(status, rules[..|rules| - 1]), rules[|rules| - 1].action)
  }

  /** The worker's loop over the matched rules. */
  method ExecuteStatusActions(status: AccountStatus, rules: seq<RuleDefinition>) returns (result: AccountStatus)
    ensures result == Fold(status, rules)
    ensures Terminal(status) ==> result == status
    ensures !Terminal(status) && (exists i :: 0 <= i < |rules| && rules[i].action.ExpireAccount?) ==> result == EXPIRED
  {
    result := status;
    assert rules[..0] == [];
    for i := 0 to |rules|
      invariant result == Fold(status, rules[..i])
    {
      assert rules[..i + 1][..i] == rules[..i];
      result := Apply(result, rules[i].action);
    }
    assert rules[..|rules|] == rules;
    FoldClosedForm(status, rules);
  }

  /** The last suspend or reactivate action of the list, if any. */
  function LastSwitch(rules: seq<RuleDefinition>, otherwise: AccountStatus): AccountStatus {
    if rules == [] then otherwise
    else
      var last := rules[|rules| - 1];
      if last.action.SuspendAccount? then SUSPENDED
      else if last.action.ReactivateAccount? then ACTIVE
      else LastSwitch(rules[..|rules| - 1], otherwise)
  }

  ghost predicate HasExpire(rules: seq<RuleDefinition>) {
    exists i :: 0 <= i < |rules| && rules[i].action.ExpireAccount?
  }

  /** Closed form of the fold: a terminal account stays as it is; otherwise any expire action wins, wherever it
      stands; otherwise the last suspend or reactivate decides. */
  lemma {:induction false} FoldClosedForm(status: AccountStatus, rules: seq<RuleDefinition>)
    ensures Fold(status, rules)
         == if Terminal(status) then status
            else if HasExpire(rules) then EXPIRED
            else LastSwitch(rules, status)
    ensures !Terminal(status) ==> !Terminal(LastSwitch(rules, status))
    decreases |rules|
  {
    if rules == [] {
    } else {
      var n := |rules| - 1;
      FoldClosedForm(status, rules[..n]);
      if HasExpire(rules[..n]) {
        var i :| 0 <= i < n && rules[..n][i].action.ExpireAccount?;
        assert rules[i].action.ExpireAccount?;
      }
      if HasExpire(rules) && !rules[n].action.ExpireAccount? {
        var i :| 0 <= i < |rules| && rules[i].action.ExpireAccount?;
        assert rules[..n][i].action.ExpireAccount?;
      }
    }
  }

  // ----- The service over a mutable account

  datatype LifecycleError = TerminalState | AlreadyClosed | InvalidTransition | NombaError

  function ArchivedStatus(status: R.ExecutionStatus): R.ExecutionStatus {
    if status == R.PENDING || status == R.RETRYING then R.ARCHIVED else status
  }

  class Account {
    var status: AccountStatus
    var executions: seq<R.ExecutionStatus>

    constructor ()
      ensures status == ACTIVE && executions == []
    {
      status, executions := ACTIVE, [];
    }

    /** Manual override: ACTIVE and SUSPENDED may be exchanged, nothing else. */
    method UpdateStatus(target: AccountStatus) returns (r: Result<AccountStatus, LifecycleError>)
      modifies this`status
      ensures status == Settled(old(status), Override(target), true)
      ensures r.Ok? <==> status != old(status)
      ensures r.Ok? <==> (old(status) == ACTIVE && target == SUSPENDED) || (old(status) == SUSPENDED && target == ACTIVE)
      ensures r.Ok? ==> r.value == status == target
    {
      if target == CLOSED || target == EXPIRED {
        return Err(TerminalState);
      }
      if status == CLOSED || status == EXPIRED {
        return Err(TerminalState);
      }
      var allowed := if status == ACTIVE then {SUSPENDED} else {ACTIVE};
      if target !in allowed {
        return Err(InvalidTransition);
      }
      status := target;
      return Ok(status);
    }

    /** Closing archives what is unfinished before it calls Nomba: a refusal by Nomba leaves the account open
        but its executions archived. */
    method CloseAccount(expires: bool) returns (r: Result<(), LifecycleError>)
      modifies this
      ensures status == Settled(old(status), Closing, expires)
      ensures r.Ok? <==> (old(status) == ACTIVE || old(status) == SUSPENDED) && expires
      ensures status == if r.Ok? then CLOSED else old(status)
      ensures |executions| == |old(executions)|
      ensures forall k :: 0 <= k < |executions| ==>
        executions[k] == if (old(status) == ACTIVE || old(status) == SUSPENDED)
                            && (old(executions)[k] == R.PENDING || old(executions)[k] == R.RETRYING)
                         then R.ARCHIVED else old(executions)[k]
    {
      if status == CLOSED {
        return Err(AlreadyClosed);
      }
      if status == EXPIRED {
        return Err(TerminalState);
      }
      var before := executions;
      executions := seq(|before|, k requires 0 <= k < |before| => ArchivedStatus(before[k]));
      if !expires {
        return Err(NombaError);
      }
      status := CLOSED;
      return Ok(());
    }

    /** A status action of a rule: applied from an allowed status, a completed no-op otherwise. */
    method HandleStatusChange(k: nat, action: RuleAction)
      requires k < |executions| && (action.SuspendAccount? || action.ReactivateAccount? || action.ExpireAccount?)
      modifies this
      ensures status == Settled(old(status), StatusRule(action), true)
      ensures status ==
        if action.SuspendAccount? && old(status) == ACTIVE then SUSPENDED
        else if action.ReactivateAccount? && old(status) == SUSPENDED then ACTIVE
        else if action.ExpireAccount? && (old(status) == ACTIVE || old(status) == SUSPENDED) then EXPIRED
        else old(status)
      ensures executions == old(executions)[k := R.COMPLETED]
    {
      var target, allowedFrom :=
        if action.SuspendAccount? then SUSPENDED else if action.ExpireAccount? then EXPIRED else ACTIVE,
        if action.SuspendAccount? then {ACTIVE} else if action.ExpireAccount? then {ACTIVE, SUSPENDED} else {SUSPENDED};
      if status in allowedFrom {
        status := target;
      }
      executions := executions[k := R.COMPLETED];
    }
  }
}
