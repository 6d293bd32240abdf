/** KYC staleness: rules written under an outdated tier, and the tier updates that are still to flag them. */
module KycReview {
  import opened Wrappers
  import opened RuleEngine
  import opened RuleSets
  import opened RuleBounds

  function OwnerTier(s: State, accountRef: string): KycTier {
    if accountRef in s.accounts then TierOf(s, s.accounts[accountRef].customer) else TIER_0
  }

  /** ACTIVE, written under another tier than the customer's, and not re-enabled since that tier was set. */
  predicate Outdated(s: State, i: nat) {
    && i < |s.rules| && s.rules[i].status == ACTIVE && !s.rules[i].reenabled
    && s.rules[i].kycTierAtCreation != OwnerTier(s, s.rules[i].accountRef)
  }

  /** Tier update h has yet to flag rule i: it will find it, or has found it. */
  predicate WillFlag(s: State, h: nat, i: nat) {
    && h < |s.handlers| && i < |s.rules|
    && match s.handlers[h]
       case Selecting(customer, tier) => OwnedBy(s, s.rules[i], customer) && s.rules[i].kycTierAtCreation != tier
       case Flagging(_, ids) => i in ids
       case _ => false
  }

  /** Every outdated rule is about to be flagged. */
  ghost predicate Reviewed(s: State) {
    forall i: nat :: Outdated(s, i) ==> exists h: nat :: WillFlag(s, h, i)
  }

  /** A tier update is on its way that will find a rule of this customer written under this tier. */
  ghost predicate WouldFind(s: State, customer: string, tier: KycTier) {
    exists g: nat :: FindsTier(s, g, customer, tier)
  }

  predicate FindsTier(s: State, g: nat, customer: string, tier: KycTier) {
    g < |s.handlers| && s.handlers[g].Selecting? && s.handlers[g].customer == customer && s.handlers[g].tier != tier
  }

  /** The step leaves an outdated rule that no tier update will flag: it inserts rules under a tier read before
      the customer's current one was written, too late for every tier update under way; or it is the death of the
      only tier update that was still to flag some rule. Decidable before the step. */
  ghost predicate Exposes(s: State, a: Action) {
    match a
    case Work(h, ok) =>
      && h < |s.handlers|
      && (match s.handlers[h]
          case Provisioning(ref, _, customer, _, definitions, tier) =>
            ok && ref !in s.accounts && definitions != [] && tier != TierOf(s, customer) && !WouldFind(s, customer, tier)
          case Creating(ref, _, definitions, tier) =>
            && ref in s.accounts && definitions != [] && tier != OwnerTier(s, ref)
            && !WouldFind(s, s.accounts[ref].customer, tier)
          case _ => false)
    case Crash(h) =>
      exists i: nat :: Outdated(s, i) && WillFlag(s, h, i) && forall g: nat :: WillFlag(s, g, i) ==> g == h
    case _ => false
  }

  // ----- Steps that expose nothing

  /** A rule outdated afterwards was outdated before, and whoever was to flag it still is. */
  ghost predicate Carried(s: State, t: State, i: nat) {
    Outdated(s, i) && forall h: nat :: WillFlag(s, h, i) ==> WillFlag(t, h, i)
  }

  lemma ReviewedIfCarried(s: State, t: State)
    requires Reviewed(s) && forall i: nat :: Outdated(t, i) ==> Carried(s, t, i) || exists h: nat :: WillFlag(t, h, i)
    ensures Reviewed(t)
  {
    forall i: nat | Outdated(t, i) ensures exists h: nat :: WillFlag(t, h, i) {
      if Carried(s, t, i) {
        var h: nat :| WillFlag(s, h, i);
        assert WillFlag(t, h, i);
      }
    }
  }

  /** The tier write puts every outdated rule of the customer on the list of what this update will find. */
  lemma TierWriteReviewed(s: State, h: nat, ok: bool)
    requires Wellformed(s) && Reviewed(s) && h < |s.handlers| && s.handlers[h].Arrived?
    ensures Reviewed(Advance(s, h, ok))
  {
    var t := Advance(s, h, ok);
    var next := FirstRead(s, s.handlers[h].request);
    forall i: nat | Outdated(t, i) ensures Carried(s, t, i) || exists g: nat :: WillFlag(t, g, i) {
      assert t.rules[i].accountRef == s.rules[i].accountRef;
      if next.Selecting? && OwnedBy(s, s.rules[i], next.customer) {
        assert WillFlag(t, h, i);
      } else {
        assert Outdated(s, i);
        assert Carried(s, t, i);
      }
    }
    ReviewedIfCarried(s, t);
  }

  lemma SelectionReviewed(s: State, h: nat, ok: bool)
    requires Reviewed(s) && h < |s.handlers| && s.handlers[h].Selecting?
    ensures Reviewed(Advance(s, h, ok))
  {
    var t := Advance(s, h, ok);
    forall i: nat | Outdated(t, i) ensures Carried(s, t, i) {
      assert Outdated(s, i);
    }
    ReviewedIfCarried(s, t);
  }

  /** Archiving, flagging and switching leave no new outdated rule, and a flagged one is no longer ACTIVE. */
  lemma StatusWriteReviewed(s: State, h: nat, ok: bool)
    requires Reviewed(s) && h < |s.handlers|
    requires s.handlers[h].Archiving? || s.handlers[h].Flagging? || s.handlers[h].Switching?
    ensures Reviewed(Advance(s, h, ok))
  {
    var t := Advance(s, h, ok);
    forall i: nat | Outdated(t, i) ensures Carried(s, t, i) {
      assert t.rules[i] == s.rules[i];
      assert Outdated(s, i);
    }
    ReviewedIfCarried(s, t);
  }

  /** An insert of rules under `tier` on an account of `customer`. */
  ghost predicate Inserts(s: State, t: State, h: nat, ref: string, customer: string,
                          definitions: seq<RuleDefinition>, tier: KycTier)
  {
    && h < |s.handlers| && !s.handlers[h].Selecting? && !s.handlers[h].Flagging?
    && t.handlers == s.handlers[h := Finished] && t.customers == s.customers
    && t.rules == s.rules + CreateRules(ref, definitions, tier)
    && ref in t.accounts && t.accounts[ref].customer == customer
    && (forall i: nat :: i < |s.rules| ==> OwnerTier(t, s.rules[i].accountRef) == OwnerTier(s, s.rules[i].accountRef))
    && (forall i: nat, c :: i < |s.rules| ==> OwnedBy(t, s.rules[i], c) == OwnedBy(s, s.rules[i], c))
  }

  lemma OldRulesCarried(s: State, t: State, h: nat, ref: string, customer: string, definitions: seq<RuleDefinition>,
                        tier: KycTier, i: nat)
    requires Inserts(s, t, h, ref, customer, definitions, tier) && i < |s.rules|
    ensures Outdated(t, i) <==> Outdated(s, i)
    ensures forall g: nat :: WillFlag(t, g, i) <==> WillFlag(s, g, i)
  {
    assert t.rules[i] == s.rules[i];
  }

  /** Ids found by a tier update are ids of stored rules on accounts of its customer. */
  ghost predicate IdsStored(s: State) {
    forall g: nat :: g < |s.handlers| && s.handlers[g].Flagging? ==> IdsOwned(s, s.handlers[g])
  }

  ghost predicate IdsOwned(s: State, f: Handler)
    requires f.Flagging?
  {
    forall j :: j in f.ids ==> OnAccountOf(s, j, f.customer)
  }

  /** Rule j is on an account of this customer. */
  predicate OnAccountOf(s: State, j: nat, customer: string) {
    && j < |s.rules| && s.rules[j].accountRef in s.accounts
    && s.accounts[s.rules[j].accountRef].customer == customer
  }

  lemma NewRuleOutdated(s: State, t: State, h: nat, ref: string, customer: string, definitions: seq<RuleDefinition>,
                        tier: KycTier, i: nat)
    requires Inserts(s, t, h, ref, customer, definitions, tier) && |s.rules| <= i < |t.rules|
    requires IdsStored(s)
    ensures Outdated(t, i) <==> tier != TierOf(s, customer)
    ensures forall g: nat :: WillFlag(t, g, i) <==> FindsTier(s, g, customer, tier)
  {
    assert t.rules[i] == CreateRules(ref, definitions, tier)[i - |s.rules|];
  }

  lemma InsertReviewed(s: State, t: State, h: nat, ref: string, customer: string, definitions: seq<RuleDefinition>, tier: KycTier)
    requires Reviewed(s) && IdsStored(s) && Inserts(s, t, h, ref, customer, definitions, tier)
    ensures Reviewed(t) <==> definitions == [] || tier == TierOf(s, customer) || WouldFind(s, customer, tier)
  {
    var n := |s.rules|;
    forall i: nat | Outdated(t, i) ensures i < n ==> exists g: nat :: WillFlag(t, g, i) {
      if i < n {
        OldRulesCarried(s, t, h, ref, customer, definitions, tier, i);
        var g: nat :| WillFlag(s, g, i);
        assert WillFlag(t, g, i);
      }
    }
    forall i: nat | n <= i < |t.rules|
      ensures Outdated(t, i) <==> tier != TierOf(s, customer)
      ensures (exists g: nat :: WillFlag(t, g, i)) <==> WouldFind(s, customer, tier)
    {
      NewRuleOutdated(s, t, h, ref, customer, definitions, tier, i);
      if WouldFind(s, customer, tier) {
        var g: nat :| FindsTier(s, g, customer, tier);
        assert WillFlag(t, g, i);
      }
    }
    if definitions != [] {
      assert n < |t.rules|;
      assert Outdated(t, n) <==> tier != TierOf(s, customer);
    }
  }

  lemma StepKeepsIdsStored(s: State, a: Action)
    requires IdsStored(s)
    ensures IdsStored(After(s, a))
  {
    var t := After(s, a);
    RulesExtend(s, a);
    AccountsExtend(s, a);
    forall g: nat | g < |t.handlers| && t.handlers[g].Flagging? ensures IdsOwned(t, t.handlers[g]) {
      OthersStay(s, a, g);
      if g < |s.handlers| && a.Work? && a.h == g {
        SelectionOwned(s, g, a.ok);
      } else {
        assert IdsOwned(s, s.handlers[g]);
      }
    }
  }

  /** The search looks at accounts of the customer only. */
  lemma SelectionOwned(s: State, h: nat, ok: bool)
    requires h < |s.handlers| && Advance(s, h, ok).handlers[h].Flagging?
    ensures IdsOwned(Advance(s, h, ok), Advance(s, h, ok).handlers[h])
  {
  }

  lemma ProvisionReviewed(s: State, a: Action)
    requires Wellformed(s) && IdsStored(s) && Reviewed(s) && a.Work? && a.h < |s.handlers| && s.handlers[a.h].Provisioning?
    ensures Reviewed(After(s, a)) <==> !Exposes(s, a)
  {
    var t, f := After(s, a), s.handlers[a.h];
    if a.ok && f.accountRef !in s.accounts {
      assert Inserts(s, t, a.h, f.accountRef, f.customer, f.definitions, f.tier);
      InsertReviewed(s, t, a.h, f.accountRef, f.customer, f.definitions, f.tier);
    } else {
      FinishReviewed(s, a.h);
    }
  }

  lemma ReplaceReviewed(s: State, a: Action)
    requires Wellformed(s) && IdsStored(s) && Reviewed(s) && a.Work? && a.h < |s.handlers| && s.handlers[a.h].Creating?
    ensures Reviewed(After(s, a)) <==> !Exposes(s, a)
  {
    var t, f := After(s, a), s.handlers[a.h];
    assert Checked(s, f);
    var customer := s.accounts[f.accountRef].customer;
    assert Inserts(s, t, a.h, f.accountRef, customer, f.definitions, f.tier);
    InsertReviewed(s, t, a.h, f.accountRef, customer, f.definitions, f.tier);
  }

  lemma FinishReviewed(s: State, h: nat)
    requires Reviewed(s) && h < |s.handlers|
    ensures Reviewed(Goto(s, h, Finished)) <==> !Exposes(s, Crash(h))
  {
    var t := Goto(s, h, Finished);
    assert forall i: nat :: Outdated(t, i) <==> Outdated(s, i);
    assert forall i: nat, g: nat :: WillFlag(t, g, i) <==> WillFlag(s, g, i) && g != h;
    if !Exposes(s, Crash(h)) {
      forall i: nat | Outdated(t, i) ensures exists g: nat :: WillFlag(t, g, i) {
        assert Outdated(s, i);
        var g: nat :| WillFlag(s, g, i);
        if g == h {
          var g': nat :| WillFlag(s, g', i) && g' != h;
          assert WillFlag(t, g', i);
        } else {
          assert WillFlag(t, g, i);
        }
      }
    }
  }

  lemma QuietReviewed(s: State, a: Action)
    requires Wellformed(s) && Reviewed(s) && (a.CreateCustomer? || a.Arrive?)
    ensures Reviewed(After(s, a))
  {
    var t := After(s, a);
    forall i: nat | Outdated(t, i) ensures Carried(s, t, i) {
      assert Outdated(s, i);
    }
    ReviewedIfCarried(s, t);
  }

  lemma ReadReviewed(s: State, h: nat, ok: bool)
    requires Reviewed(s) && h < |s.handlers| && (s.handlers[h].Replacing? || s.handlers[h].Finished?)
    ensures Reviewed(Advance(s, h, ok))
  {
    var t := Advance(s, h, ok);
    forall i: nat | Outdated(t, i) ensures Carried(s, t, i) {
      assert Outdated(s, i);
    }
    ReviewedIfCarried(s, t);
  }

  /** One step keeps every outdated rule under review if and only if it exposes none. */
  lemma StepReviewed(s: State, a: Action)
    requires Wellformed(s) && IdsStored(s) && Reviewed(s)
    ensures Reviewed(After(s, a)) <==> !Exposes(s, a)
  {
    match a
    case CreateCustomer(_, _) => QuietReviewed(s, a);
    case Arrive(_) => QuietReviewed(s, a);
    case Crash(h) => if h < |s.handlers| { FinishReviewed(s, h); }
    case Work(h, ok) =>
      if h < |s.handlers| {
        match s.handlers[h]
        case Arrived(_) => TierWriteReviewed(s, h, ok);
        case Provisioning(_, _, _, _, _, _) => ProvisionReviewed(s, a);
        case Creating(_, _, _, _) => ReplaceReviewed(s, a);
        case Selecting(_, _) => SelectionReviewed(s, h, ok);
        case Archiving(_, _, _, _) => StatusWriteReviewed(s, h, ok);
        case Flagging(_, _) => StatusWriteReviewed(s, h, ok);
        case Switching(_, _) => StatusWriteReviewed(s, h, ok);
        case Replacing(_, _, _, _) => ReadReviewed(s, h, ok);
        case Finished => ReadReviewed(s, h, ok);
      }
  }

  // ----- Whole runs

  ghost predicate AlwaysReviewed(actions: seq<Action>) {
    forall n: nat :: n <= |actions| ==> Reviewed(At(actions, n))
  }

  ghost predicate NeverExposes(actions: seq<Action>) {
    forall n: nat :: n < |actions| ==> !Exposes(At(actions, n), actions[n])
  }

  lemma {:induction false} RunIdsStored(actions: seq<Action>, n: nat)
    requires n <= |actions|
    ensures IdsStored(At(actions, n))
    decreases n
  {
    if n == 0 {
    } else {
      RunIdsStored(actions, n - 1);
      AtStep(actions, n - 1);
      StepKeepsIdsStored(At(actions, n - 1), actions[n - 1]);
    }
  }

  lemma ReviewedNext(actions: seq<Action>, n: nat)
    requires n < |actions| && Reviewed(At(actions, n))
    ensures Reviewed(At(actions, n + 1)) <==> !Exposes(At(actions, n), actions[n])
  {
    AtStep(actions, n);
    RunWellformed(actions, n);
    RunIdsStored(actions, n);
    StepReviewed(At(actions, n), actions[n]);
  }

  lemma {:induction false} ReviewedAt(actions: seq<Action>, n: nat)
    requires n <= |actions| && NeverExposes(actions)
    ensures Reviewed(At(actions, n))
    decreases n
  {
    if n == 0 {
    } else {
      ReviewedAt(actions, n - 1);
      ReviewedNext(actions, n - 1);
    }
  }

  /** Over whole runs, both ways: every outdated rule is always about to be flagged exactly when no step exposes one. */
  lemma ReviewOverRuns(actions: seq<Action>)
    ensures AlwaysReviewed(actions) <==> NeverExposes(actions)
  {
    if NeverExposes(actions) {
      forall n: nat | n <= |actions| ensures Reviewed(At(actions, n)) {
        ReviewedAt(actions, n);
      }
    }
    if AlwaysReviewed(actions) {
      forall n: nat | n < |actions| ensures !Exposes(At(actions, n), actions[n]) {
        assert Reviewed(At(actions, n)) && Reviewed(At(actions, n + 1));
        ReviewedNext(actions, n);
      }
    }
  }

  /** Request h has written a tier and not yet flagged what it makes stale. */
  predicate UnderWay(s: State, h: nat) {
    h < |s.handlers| && (s.handlers[h].Selecting? || s.handlers[h].Flagging?)
  }

  /** KYC staleness: in a run that exposes no rule, whenever no tier update is under way, each ACTIVE rule was written
      under its customer's current tier or was re-enabled since that tier was set. */
  lemma KycStaleness(actions: seq<Action>, n: nat, i: nat)
    requires n <= |actions| && NeverExposes(actions) && forall h: nat :: !UnderWay(At(actions, n), h)
    requires i < |At(actions, n).rules| && At(actions, n).rules[i].status == ACTIVE
    ensures var s := At(actions, n);
            var r := s.rules[i];
      && r.accountRef in s.accounts
      && (r.kycTierAtCreation == TierOf(s, s.accounts[r.accountRef].customer) || r.reenabled)
  {
    ReviewedAt(actions, n);
    RunWellformed(actions, n);
    var s := At(actions, n);
    assert forall h: nat :: WillFlag(s, h, i) ==> UnderWay(s, h);
    assert !Outdated(s, i);
  }

  // ----- Requests that do not overlap

  /** The request remembers a tier of this customer and has yet to insert rules under it. */
  predicate HoldsTier(s: State, f: Handler, customer: string) {
    match f
    case Provisioning(_, _, c, _, _, _) => c == customer
    case Archiving(ref, _, _, _) => ref in s.accounts && s.accounts[ref].customer == customer
    case Creating(ref, _, _, _) => ref in s.accounts && s.accounts[ref].customer == customer
    case _ => false
  }

  predicate HoldsTierAt(s: State, g: nat, customer: string) {
    g < |s.handlers| && HoldsTier(s, s.handlers[g], customer)
  }

  /** The step writes a tier while another request still holds the customer's old one, or kills a tier update
      between its tier write and its flagging. */
  ghost predicate Overlaps(s: State, a: Action) {
    || (a.Crash? && UnderWay(s, a.h))
    || (&& a.Work? && a.h < |s.handlers| && s.handlers[a.h].Arrived? && s.handlers[a.h].request.UpdateTier?
        && exists g: nat :: HoldsTierAt(s, g, s.handlers[a.h].request.customer))
  }

  ghost predicate TiersCurrent(s: State) {
    forall g: nat, c :: HoldsTierAt(s, g, c) ==> s.handlers[g].tier == TierOf(s, c)
  }

  lemma OwnTierKept(s: State, h: nat, ok: bool, c: string)
    requires TiersCurrent(s) && h < |s.handlers| && Checked(s, s.handlers[h]) && HoldsTierAt(Advance(s, h, ok), h, c)
    ensures Advance(s, h, ok).handlers[h].tier == TierOf(Advance(s, h, ok), c)
  {
    match s.handlers[h]
    case Arrived(q) =>
    case Replacing(ref, customer, _, _) =>
    case Archiving(_, _, _, _) => assert HoldsTierAt(s, h, c);
    case _ =>
  }

  lemma TierKept(s: State, a: Action, g: nat, c: string)
    requires Wellformed(s) && TiersCurrent(s) && !Overlaps(s, a) && HoldsTierAt(After(s, a), g, c)
    ensures After(s, a).handlers[g].tier == TierOf(After(s, a), c)
  {
    OthersStay(s, a, g);
    assert g < |s.handlers| && Checked(s, s.handlers[g]);
    if a.Work? && a.h == g {
      OwnTierKept(s, g, a.ok, c);
    } else {
      OtherTierKept(s, a, g, c);
    }
  }

  lemma OtherTierKept(s: State, a: Action, g: nat, c: string)
    requires Wellformed(s) && TiersCurrent(s) && !Overlaps(s, a) && HoldsTierAt(After(s, a), g, c) && !(a.Work? && a.h == g)
    requires g < |s.handlers| && Checked(s, s.handlers[g]) && After(s, a).handlers[g] == s.handlers[g]
    ensures After(s, a).handlers[g].tier == TierOf(After(s, a), c)
  {
    AccountsExtend(s, a);
    assert HoldsTierAt(s, g, c) && c in s.customers;
    assert TierOf(After(s, a), c) == TierOf(s, c);
  }

  lemma NoOverlapExposesNothing(s: State, a: Action)
    requires Wellformed(s) && TiersCurrent(s) && !Overlaps(s, a)
    ensures !Exposes(s, a)
  {
    if a.Work? && a.h < |s.handlers| {
      match s.handlers[a.h]
      case Provisioning(_, _, customer, _, _, _) => assert HoldsTierAt(s, a.h, customer);
      case Creating(ref, _, _, _) => if ref in s.accounts { assert HoldsTierAt(s, a.h, s.accounts[ref].customer); }
      case _ =>
    }
  }

  lemma {:induction false} TiersStayCurrent(actions: seq<Action>, n: nat)
    requires n <= |actions| && forall m: nat :: m < |actions| ==> !Overlaps(At(actions, m), actions[m])
    ensures TiersCurrent(At(actions, n))
    decreases n
  {
    if n == 0 {
    } else {
      var s, a := At(actions, n - 1), actions[n - 1];
      TiersStayCurrent(actions, n - 1);
      RunWellformed(actions, n - 1);
      AtStep(actions, n - 1);
      assert !Overlaps(s, a);
      forall g: nat, c | HoldsTierAt(After(s, a), g, c) ensures After(s, a).handlers[g].tier == TierOf(After(s, a), c) {
        TierKept(s, a, g, c);
      }
    }
  }

  /** Runs in which no tier is written between another request's tier read and its insert, and no tier update dies
      half way, expose nothing: `KycStaleness` applies to them. */
  lemma NeverExposesWithoutOverlap(actions: seq<Action>)
    requires forall n: nat :: n < |actions| ==> !Overlaps(At(actions, n), actions[n])
    ensures NeverExposes(actions)
  {
    forall n: nat | n < |actions| ensures !Exposes(At(actions, n), actions[n]) {
      TiersStayCurrent(actions, n);
      RunWellformed(actions, n);
      NoOverlapExposesNothing(At(actions, n), actions[n]);
    }
  }

  // ----- Whose rules a tier update touches

  /** The customer whose tier request h updates, if it is a tier update. */
  function TierUpdateOf(f: Handler): Option<string> {
    match f
    case Arrived(UpdateTier(customer, _)) => Some(customer)
    case Selecting(customer, _) => Some(customer)
    case Flagging(customer, _) => Some(customer)
    case _ => None
  }

  /** In every run no step of a tier update changes the status of a rule on another customer's account. */
  lemma OtherCustomersUntouched(actions: seq<Action>, n: nat, h: nat, customer: string, r: nat)
    requires n < |actions| && actions[n].Work? && actions[n].h == h && h < |At(actions, n).handlers|
    requires TierUpdateOf(At(actions, n).handlers[h]) == Some(customer)
    requires r < |At(actions, n).rules|
    ensures r < |At(actions, n + 1).rules|
    ensures At(actions, n + 1).rules[r].status != At(actions, n).rules[r].status ==>
      && At(actions, n).rules[r].accountRef in At(actions, n).accounts
      && At(actions, n).accounts[At(actions, n).rules[r].accountRef].customer == customer
      && At(actions, n + 1).rules[r].status == FLAGGED_FOR_REVIEW
  {
    AtStep(actions, n);
    RunIdsStored(actions, n);
    TierStepTouchesOwn(At(actions, n), actions[n], h, customer, r);
  }

  lemma TierStepTouchesOwn(s: State, a: Action, h: nat, customer: string, r: nat)
    requires IdsStored(s) && a.Work? && a.h == h && h < |s.handlers| && TierUpdateOf(s.handlers[h]) == Some(customer)
    requires r < |s.rules|
    ensures |After(s, a).rules| == |s.rules|
    ensures After(s, a).rules[r].status != s.rules[r].status ==>
      OnAccountOf(s, r, customer) && After(s, a).rules[r].status == FLAGGED_FOR_REVIEW
  {
    match s.handlers[h]
    case Arrived(_) =>
    case Flagging(_, _) => assert IdsOwned(s, s.handlers[h]);
    case _ =>
  }

  // ----- What the history of re-enabling says

  /** The step switches rule r on. */
  ghost predicate SwitchesOn(s: State, a: Action, r: nat) {
    a.Work? && a.h < |s.handlers| && s.handlers[a.h] == Switching(r, true) && r < |s.rules|
  }

  /** The step writes the tier of the customer on whose account rule r is. */
  ghost predicate WritesTierOf(s: State, a: Action, r: nat) {
    && a.Work? && a.h < |s.handlers| && s.handlers[a.h].Arrived? && s.handlers[a.h].request.UpdateTier?
    && s.handlers[a.h].request.customer in s.customers && OnAccountOf(s, r, s.handlers[a.h].request.customer)
  }

  lemma ReenabledStep(s: State, a: Action, r: nat)
    requires r < |After(s, a).rules|
    ensures After(s, a).rules[r].reenabled <==>
      SwitchesOn(s, a, r) || (r < |s.rules| && s.rules[r].reenabled && !WritesTierOf(s, a, r))
  {
    if a.Work? && a.h < |s.handlers| {
      match s.handlers[a.h]
      case Arrived(_) =>
      case Provisioning(_, _, _, _, _, _) =>
      case Archiving(_, _, _, _) =>
      case Creating(_, _, _, _) =>
      case Switching(_, _) =>
      case Flagging(_, _) =>
      case _ =>
    }
  }

  /** Rule r was switched on at m, and its customer's tier has not been written since. */
  ghost predicate SwitchedOnSince(actions: seq<Action>, m: nat, n: nat, r: nat) {
    && m < n <= |actions| && SwitchesOn(At(actions, m), actions[m], r)
    && forall j: nat :: m < j < n ==> !WritesTierOf(At(actions, j), actions[j], r)
  }

  /** In every run `reenabled` means what KYC staleness needs: the rule was switched on, and its customer's tier has not
      been written since. */
  lemma {:induction false} ReenabledExactlyWhen(actions: seq<Action>, n: nat, r: nat)
    requires n <= |actions| && r < |At(actions, n).rules|
    ensures At(actions, n).rules[r].reenabled <==> exists m: nat :: SwitchedOnSince(actions, m, n, r)
    decreases n
  {
    if n == 0 {
    } else {
      var k := n - 1;
      ReenabledNext(actions, k, r);
      if r < |At(actions, k).rules| { ReenabledExactlyWhen(actions, k, r); }
      if SwitchesOn(At(actions, k), actions[k], r) {
        assert SwitchedOnSince(actions, k, n, r);
      } else if r < |At(actions, k).rules| && !WritesTierOf(At(actions, k), actions[k], r) {
        forall m: nat ensures SwitchedOnSince(actions, m, n, r) <==> SwitchedOnSince(actions, m, k, r) {
        }
      } else {
        NotSince(actions, k, n, r);
      }
    }
  }

  lemma ReenabledNext(actions: seq<Action>, n: nat, r: nat)
    requires n < |actions| && r < |At(actions, n + 1).rules|
    ensures At(actions, n + 1).rules[r].reenabled <==>
      || SwitchesOn(At(actions, n), actions[n], r)
      || (r < |At(actions, n).rules| && At(actions, n).rules[r].reenabled && !WritesTierOf(At(actions, n), actions[n], r))
  {
    AtStep(actions, n);
    ReenabledStep(At(actions, n), actions[n], r);
  }

  /** A rule that does not exist yet, or whose customer's tier is written now, has not been switched on since. */
  lemma NotSince(actions: seq<Action>, k: nat, n: nat, r: nat)
    requires k < |actions| && n == k + 1 && !SwitchesOn(At(actions, k), actions[k], r)
    requires r >= |At(actions, k).rules| || WritesTierOf(At(actions, k), actions[k], r)
    ensures forall m: nat :: !SwitchedOnSince(actions, m, n, r)
  {
    forall m: nat ensures !SwitchedOnSince(actions, m, n, r) {
      if m < k && SwitchesOn(At(actions, m), actions[m], r) {
        DefinitionsForever(actions, m, k);
      }
    }
  }
}
