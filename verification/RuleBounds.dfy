/** The 100% bound on an account's ACTIVE release rules, with requests interleaving at every access. */
module RuleBounds {
  import opened RuleEngine
  import opened Split
  import opened RuleSets

  function ActiveShare(r: Rule, accountRef: string): nat {
    if r.accountRef == accountRef && r.status == ACTIVE then Percentage(r.definition) else 0
  }

  function ActivePercentage(rules: seq<Rule>, accountRef: string): nat {
    if rules == [] then 0
    else ActivePercentage(rules[..|rules| - 1], accountRef) + ActiveShare(rules[|rules| - 1], accountRef)
  }

  lemma {:induction false} ShareConcat(a: seq<Rule>, b: seq<Rule>, accountRef: string)
    ensures ActivePercentage(a + b, accountRef) == ActivePercentage(a, accountRef) + ActivePercentage(b, accountRef)
    decreases |b|
  {
    if b == [] {
      assert a + b == a;
    } else {
      var n := |b| - 1;
      assert (a + b)[..|a| + n] == a + b[..n];
      ShareConcat(a, b[..n], accountRef);
    }
  }

  lemma {:induction false} ShareMonotone(a: seq<Rule>, b: seq<Rule>, accountRef: string)
    requires |a| == |b| && forall i :: 0 <= i < |a| ==> ActiveShare(b[i], accountRef) <= ActiveShare(a[i], accountRef)
    ensures ActivePercentage(b, accountRef) <= ActivePercentage(a, accountRef)
    decreases |a|
  {
    if a == [] {
    } else {
      ShareMonotone(a[..|a| - 1], b[..|a| - 1], accountRef);
    }
  }

  lemma {:induction false} ShareZero(rules: seq<Rule>, accountRef: string)
    requires forall i :: 0 <= i < |rules| ==> ActiveShare(rules[i], accountRef) == 0
    ensures ActivePercentage(rules, accountRef) == 0
    decreases |rules|
  {
    if rules == [] {
    } else {
      ShareZero(rules[..|rules| - 1], accountRef);
    }
  }

  lemma {:induction false} ShareUpdate(rules: seq<Rule>, id: nat, r: Rule, accountRef: string)
    requires id < |rules|
    ensures ActivePercentage(rules[id := r], accountRef)
         == ActivePercentage(rules, accountRef) - ActiveShare(rules[id], accountRef) + ActiveShare(r, accountRef)
    decreases |rules|
  {
    var n := |rules| - 1;
    if id == n {
      assert rules[id := r][..n] == rules[..n];
    } else {
      assert rules[id := r][..n] == rules[..n][id := r];
      ShareUpdate(rules[..n], id, r, accountRef);
    }
  }

  lemma {:induction false} ShareOfNewRules(accountRef: string, definitions: seq<RuleDefinition>, tier: KycTier, b: string)
    ensures ActivePercentage(CreateRules(accountRef, definitions, tier), b)
         == if b == accountRef then TotalPercentage(definitions) else 0
    decreases |definitions|
  {
    if definitions == [] {
    } else {
      var n := |definitions| - 1;
      assert CreateRules(accountRef, definitions, tier)[..n] == CreateRules(accountRef, definitions[..n], tier);
      ShareOfNewRules(accountRef, definitions[..n], tier, b);
    }
  }

  lemma ShareAfterCreating(rules: seq<Rule>, accountRef: string, definitions: seq<RuleDefinition>, tier: KycTier, b: string)
    ensures ActivePercentage(rules + CreateRules(accountRef, definitions, tier), b)
         == ActivePercentage(rules, b) + if b == accountRef then TotalPercentage(definitions) else 0
  {
    ShareConcat(rules, CreateRules(accountRef, definitions, tier), b);
    ShareOfNewRules(accountRef, definitions, tier, b);
  }

  // ----- Well-formed states

  /** What a request's checks have established. */
  ghost predicate Checked(s: State, f: Handler) {
    match f
    case Provisioning(_, _, customer, _, definitions, _) => ValidRuleSet(definitions) && customer in s.customers
    case Replacing(ref, customer, model, definitions) =>
      && ValidRuleSet(definitions) && ref in s.accounts && s.accounts[ref].customer == customer
      && (model == PARALLEL ==> TotalPercentage(definitions) <= 100)
    case Archiving(ref, model, definitions, _) =>
      ValidRuleSet(definitions) && ref in s.accounts && (model == PARALLEL ==> TotalPercentage(definitions) <= 100)
    case Creating(ref, model, definitions, _) =>
      ValidRuleSet(definitions) && ref in s.accounts && (model == PARALLEL ==> TotalPercentage(definitions) <= 100)
    case _ => true
  }

  /** Rules are valid and belong to accounts that exist, accounts belong to customers that exist. */
  ghost predicate Wellformed(s: State) {
    && (forall b :: b in s.accounts ==> s.accounts[b].customer in s.customers)
    && (forall i :: 0 <= i < |s.rules| ==> s.rules[i].accountRef in s.accounts && ValidRule(s.rules[i].definition))
    && (forall h: nat :: h < |s.handlers| ==> Checked(s, s.handlers[h]))
  }

  lemma CheckedExtends(s: State, t: State, f: Handler)
    requires Extends(s, t) && Checked(s, f)
    ensures Checked(t, f)
  {
  }

  lemma RulesWellformed(s: State, a: Action)
    requires Wellformed(s)
    ensures forall i :: 0 <= i < |After(s, a).rules| ==>
      After(s, a).rules[i].accountRef in After(s, a).accounts && ValidRule(After(s, a).rules[i].definition)
  {
    var t := After(s, a);
    StepExtends(s, a);
    forall i | 0 <= i < |t.rules| ensures t.rules[i].accountRef in t.accounts && ValidRule(t.rules[i].definition) {
      if i < |s.rules| {
        assert t.rules[i].accountRef == s.rules[i].accountRef;
      } else {
        assert a.Work? && (s.handlers[a.h].Provisioning? || s.handlers[a.h].Creating?);
        assert Checked(s, s.handlers[a.h]);
      }
    }
  }

  /** The request that moves has checked what its new position says. */
  lemma MovedChecked(s: State, h: nat, ok: bool)
    requires h < |s.handlers| && Checked(s, s.handlers[h])
    ensures Checked(Advance(s, h, ok), Advance(s, h, ok).handlers[h])
  {
    match s.handlers[h]
    case Arrived(_) =>
    case Provisioning(_, _, _, _, _, _) =>
    case Replacing(_, _, _, _) =>
    case Archiving(_, _, _, _) =>
    case _ =>
  }

  lemma StepKeepsWellformed(s: State, a: Action)
    requires Wellformed(s)
    ensures Wellformed(After(s, a))
  {
    var t := After(s, a);
    StepExtends(s, a);
    RulesWellformed(s, a);
    forall h: nat | h < |t.handlers| ensures Checked(t, t.handlers[h]) {
      OthersStay(s, a, h);
      if h < |s.handlers| {
        assert Checked(s, s.handlers[h]);
        if a.Work? && a.h == h { MovedChecked(s, h, a.ok); } else { CheckedExtends(s, t, s.handlers[h]); }
      }
    }
  }

  lemma {:induction false} RunWellformed(actions: seq<Action>, n: nat)
    requires n <= |actions|
    ensures Wellformed(At(actions, n))
    decreases n
  {
    if n == 0 {
    } else {
      RunWellformed(actions, n - 1);
      AtStep(actions, n - 1);
      StepKeepsWellformed(At(actions, n - 1), actions[n - 1]);
    }
  }

  // ----- One step

  /** The step makes rules of account b ACTIVE that do not fit under 100 beside those ACTIVE already: by creating
      the account, by the insert of a replacement, or by switching a rule on. Decidable before the step. */
  predicate Exceeds(s: State, a: Action, b: string) {
    && a.Work? && a.h < |s.handlers|
    && match s.handlers[a.h]
       case Provisioning(ref, _, _, _, definitions, _) =>
         a.ok && ref == b && b !in s.accounts && TotalPercentage(definitions) > 100
       case Creating(ref, _, definitions, _) =>
         ref == b && b in s.accounts && ActivePercentage(s.rules, b) + TotalPercentage(definitions) > 100
       case Switching(id, enabled) =>
         && enabled && OnAccount(s, b, id) && s.rules[id].status != ACTIVE
         && ActivePercentage(s.rules, b) + Percentage(s.rules[id].definition) > 100
       case _ => false
  }

  lemma NoRulesNoShare(s: State, b: string)
    requires Wellformed(s) && b !in s.accounts
    ensures ActivePercentage(s.rules, b) == 0
  {
    ShareZero(s.rules, b);
  }

  /** Archiving, flagging and every read leave at most what was ACTIVE before. */
  lemma PassiveShare(s: State, a: Action, b: string)
    requires a.Work? && a.h < |s.handlers|
    requires var f := s.handlers[a.h]; !f.Provisioning? && !f.Creating? && !f.Switching?
    ensures ActivePercentage(After(s, a).rules, b) <= ActivePercentage(s.rules, b)
  {
    ShareMonotone(s.rules, After(s, a).rules, b);
  }

  lemma ProvisionShare(s: State, a: Action, b: string)
    requires Wellformed(s) && a.Work? && a.h < |s.handlers| && s.handlers[a.h].Provisioning?
    ensures var f := s.handlers[a.h];
      ActivePercentage(After(s, a).rules, b)
      == if a.ok && f.accountRef !in s.accounts && b == f.accountRef then TotalPercentage(f.definitions)
         else ActivePercentage(s.rules, b)
  {
    var f := s.handlers[a.h];
    ShareAfterCreating(s.rules, f.accountRef, f.definitions, f.tier, b);
    if b !in s.accounts { NoRulesNoShare(s, b); }
  }

  lemma InsertShare(s: State, a: Action, b: string)
    requires a.Work? && a.h < |s.handlers| && s.handlers[a.h].Creating?
    ensures var f := s.handlers[a.h];
      ActivePercentage(After(s, a).rules, b)
      == ActivePercentage(s.rules, b)
         + if f.accountRef in s.accounts && b == f.accountRef then TotalPercentage(f.definitions) else 0
  {
    var f := s.handlers[a.h];
    ShareAfterCreating(s.rules, f.accountRef, f.definitions, f.tier, b);
  }

  lemma SwitchShare(s: State, a: Action, b: string)
    requires a.Work? && a.h < |s.handlers| && s.handlers[a.h].Switching? && s.handlers[a.h].id < |s.rules|
    ensures var f := s.handlers[a.h];
      ActivePercentage(After(s, a).rules, b)
      == ActivePercentage(s.rules, b) - ActiveShare(s.rules[f.id], b)
         + if f.enabled && s.rules[f.id].accountRef == b then Percentage(s.rules[f.id].definition) else 0
  {
    var f := s.handlers[a.h];
    ShareUpdate(s.rules, f.id, Switched(s.rules[f.id], f.enabled), b);
  }

  /** One step keeps the bound if and only if it does not exceed it. */
  lemma StepBound(s: State, a: Action, b: string)
    requires Wellformed(s) && ActivePercentage(s.rules, b) <= 100
    ensures ActivePercentage(After(s, a).rules, b) <= 100 <==> !Exceeds(s, a, b)
  {
    if a.Work? && a.h < |s.handlers| {
      var f := s.handlers[a.h];
      if f.Provisioning? {
        ProvisionShare(s, a, b);
      } else if f.Creating? {
        InsertShare(s, a, b);
      } else if f.Switching? {
        if f.id < |s.rules| { SwitchShare(s, a, b); }
      } else {
        PassiveShare(s, a, b);
      }
    }
  }

  // ----- Whole runs

  ghost predicate BoundedFrom(actions: seq<Action>, from: nat, b: string) {
    forall n: nat :: from <= n <= |actions| ==> ActivePercentage(At(actions, n).rules, b) <= 100
  }

  ghost predicate NoExcessFrom(actions: seq<Action>, from: nat, b: string) {
    forall n: nat :: from <= n < |actions| ==> !Exceeds(At(actions, n), actions[n], b)
  }

  lemma {:induction false} BoundedAt(actions: seq<Action>, from: nat, n: nat, b: string)
    requires from <= n <= |actions| && ActivePercentage(At(actions, from).rules, b) <= 100
    requires NoExcessFrom(actions, from, b)
    ensures ActivePercentage(At(actions, n).rules, b) <= 100
    decreases n
  {
    if from == n {
    } else {
      BoundedAt(actions, from, n - 1, b);
      AtStep(actions, n - 1);
      RunWellformed(actions, n - 1);
      StepBound(At(actions, n - 1), actions[n - 1], b);
    }
  }

  /** Over whole runs, both ways: from a state within the bound on, it holds in every state exactly when no step
      exceeds it. */
  lemma BoundOverRuns(actions: seq<Action>, from: nat, b: string)
    requires from <= |actions| && ActivePercentage(At(actions, from).rules, b) <= 100
    ensures BoundedFrom(actions, from, b) <==> NoExcessFrom(actions, from, b)
  {
    if NoExcessFrom(actions, from, b) {
      forall n: nat | from <= n <= |actions| ensures ActivePercentage(At(actions, n).rules, b) <= 100 {
        BoundedAt(actions, from, n, b);
      }
    }
    if BoundedFrom(actions, from, b) {
      forall n: nat | from <= n < |actions| ensures !Exceeds(At(actions, n), actions[n], b) {
        AtStep(actions, n);
        RunWellformed(actions, n);
        assert ActivePercentage(At(actions, n).rules, b) <= 100 && ActivePercentage(At(actions, n + 1).rules, b) <= 100;
        StepBound(At(actions, n), actions[n], b);
      }
    }
  }

  // ----- After a PARALLEL replacement

  predicate IsCreatingOn(f: Handler, b: string) {
    f.Creating? && f.accountRef == b
  }

  predicate Busy(s: State, h: nat, b: string) {
    h < |s.handlers| && IsCreatingOn(s.handlers[h], b)
  }

  /** The step neither switches a rule of b on, nor inserts a SEQUENTIAL rule set on b, nor inserts one while another
      replacement of b stands between its archiving and its insert. */
  ghost predicate Calm(s: State, a: Action, b: string) {
    a.Work? && a.h < |s.handlers| ==>
      && !(s.handlers[a.h].Switching? && s.handlers[a.h].enabled && OnAccount(s, b, s.handlers[a.h].id))
      && (IsCreatingOn(s.handlers[a.h], b) ==>
            s.handlers[a.h].model == PARALLEL && forall g: nat :: Busy(s, g, b) ==> g == a.h)
  }

  /** While a replacement of b stands between its two writes, nothing of b is ACTIVE. */
  ghost predicate Cleared(s: State, b: string) {
    (exists h: nat :: Busy(s, h, b)) ==> ActivePercentage(s.rules, b) == 0
  }

  lemma StillBusy(s: State, a: Action, b: string, g: nat)
    requires Busy(After(s, a), g, b)
    ensures (Busy(s, g, b) && !(a.Work? && a.h == g))
         || (a.Work? && a.h == g && g < |s.handlers| && s.handlers[g].Archiving? && s.handlers[g].accountRef == b)
  {
  }

  lemma CalmInsert(s: State, a: Action, b: string)
    requires Wellformed(s) && Cleared(s, b) && a.Work? && Busy(s, a.h, b) && Calm(s, a, b)
    ensures !Exceeds(s, a, b) && Cleared(After(s, a), b)
  {
    assert Checked(s, s.handlers[a.h]);
    forall g: nat ensures !Busy(After(s, a), g, b) {
      if Busy(After(s, a), g, b) { StillBusy(s, a, b, g); }
    }
  }

  lemma CalmElsewhere(s: State, a: Action, b: string)
    requires Wellformed(s) && Cleared(s, b) && b in s.accounts && Calm(s, a, b)
    requires !(a.Work? && a.h < |s.handlers| && (s.handlers[a.h].Creating? || s.handlers[a.h].Archiving?)
               && s.handlers[a.h].accountRef == b)
    ensures Cleared(After(s, a), b)
  {
    if h: nat :| Busy(After(s, a), h, b) {
      StillBusy(s, a, b, h);
      if a.Work? && a.h < |s.handlers| { QuietShare(s, a, b); }
    }
  }

  lemma CalmStep(s: State, a: Action, b: string)
    requires Wellformed(s) && Cleared(s, b) && b in s.accounts && Calm(s, a, b)
    ensures !Exceeds(s, a, b) && Cleared(After(s, a), b) && b in After(s, a).accounts
  {
    StepExtends(s, a);
    if a.Work? && Busy(s, a.h, b) {
      CalmInsert(s, a, b);
    } else if a.Work? && a.h < |s.handlers| && s.handlers[a.h].Archiving? && s.handlers[a.h].accountRef == b {
      ShareZero(After(s, a).rules, b);
    } else {
      CalmElsewhere(s, a, b);
    }
  }

  /** Any other step adds nothing to the account's share. */
  lemma QuietShare(s: State, a: Action, b: string)
    requires Wellformed(s)
    requires a.Work? && a.h < |s.handlers| && b in s.accounts && Calm(s, a, b) && !IsCreatingOn(s.handlers[a.h], b)
    ensures ActivePercentage(After(s, a).rules, b) <= ActivePercentage(s.rules, b)
  {
    var f := s.handlers[a.h];
    if f.Provisioning? {
      ProvisionShare(s, a, b);
    } else if f.Creating? {
      InsertShare(s, a, b);
    } else if f.Switching? {
      if f.id < |s.rules| { SwitchShare(s, a, b); }
    } else {
      PassiveShare(s, a, b);
    }
  }

  ghost predicate CalmFrom(actions: seq<Action>, from: nat, b: string) {
    forall n: nat :: from <= n < |actions| ==> Calm(At(actions, n), actions[n], b)
  }

  lemma {:induction false} CalmRun(actions: seq<Action>, from: nat, n: nat, b: string)
    requires from <= n <= |actions| && CalmFrom(actions, from, b)
    requires b in At(actions, from).accounts && Cleared(At(actions, from), b)
    ensures b in At(actions, n).accounts && Cleared(At(actions, n), b)
    decreases n
  {
    if from == n {
    } else {
      CalmRun(actions, from, n - 1, b);
      AtStep(actions, n - 1);
      RunWellformed(actions, n - 1);
      CalmStep(At(actions, n - 1), actions[n - 1], b);
    }
  }

  /** A replacement accepted as PARALLEL (by request, or because the account already was) inserts its rules at step
      `from`, while nothing of the account is ACTIVE and no other replacement of it stands between its two writes.
      Then the bound holds from there on through every calm step: later replacements, tier updates, deletions and
      everything on other accounts, in any interleaving. */
  lemma BoundAfterParallelReplace(actions: seq<Action>, from: nat, b: string)
    requires from < |actions| && actions[from].Work? && Busy(At(actions, from), actions[from].h, b)
    requires ActivePercentage(At(actions, from).rules, b) == 0 && CalmFrom(actions, from, b)
    ensures BoundedFrom(actions, from, b)
  {
    RunWellformed(actions, from);
    var s := At(actions, from);
    assert Checked(s, s.handlers[actions[from].h]);
    forall n: nat | from <= n < |actions| ensures !Exceeds(At(actions, n), actions[n], b) {
      CalmRun(actions, from, n, b);
      RunWellformed(actions, n);
      CalmStep(At(actions, n), actions[n], b);
    }
    BoundOverRuns(actions, from, b);
  }

  // ----- Other accounts

  /** No step of a replacement changes a rule of another account. */
  lemma ReplacementStaysOnAccount(s: State, a: Action, r: nat)
    requires a.Work? && a.h < |s.handlers| && r < |s.rules|
    requires var f := s.handlers[a.h];
      || (f.Arrived? && f.request.Replace?) || f.Replacing?
      || ((f.Archiving? || f.Creating?) && s.rules[r].accountRef != f.accountRef)
    ensures r < |After(s, a).rules| && After(s, a).rules[r] == s.rules[r]
  {
  }
}
