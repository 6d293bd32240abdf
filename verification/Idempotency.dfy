/** The unique reference column over every run, and the serialization-replay loop around `credit`. */
module Idempotency {
  import opened BucketLedger
  import opened Treasury

  lemma UniqueAppend(entries: seq<Entry>, e: Entry)
    requires ReferencesUnique(entries) && !HasReference(entries, e.reference)
    ensures ReferencesUnique(entries + [e])
  {
  }

  lemma UniquePair(entries: seq<Entry>, e: Entry, f: Entry)
    requires ReferencesUnique(entries) && !HasReference(entries, e.reference) && !HasReference(entries, f.reference)
    requires e.reference != f.reference
    ensures ReferencesUnique(entries + ([e] + [f]))
  {
    UniqueAppend(entries, e);
    UniqueAppend(entries + [e], f);
    assert entries + ([e] + [f]) == entries + [e] + [f];
  }

  lemma OutIsNotIn(prefix: string, uuid: string)
    ensures prefix + uuid + "_out" != prefix + uuid + "_in"
  {
    assert |prefix + uuid + "_out"| != |prefix + uuid + "_in"|;
  }

  lemma StepKeepsUnique(s: State, a: Action)
    requires ReferencesUnique(s.entries)
    ensures ReferencesUnique(After(s, a).entries)
  {
    match a
    case DoCredit(b, amount, reference, source) =>
      if After(s, a) != s { UniqueAppend(s.entries, CreditEntry(s, b, amount, reference, source)); }
    case DoTransfer(business, src, dst, amount, uuid) =>
      if After(s, a) != s {
        OutIsNotIn("xfer_", uuid);
        var pair := TransferEntries(s, BucketId(business, src), BucketId(business, dst), amount, uuid);
        UniquePair(s.entries, pair[0], pair[1]);
      }
    case DoCompleteBank(k, suffix, _) =>
      if After(s, a).entries != s.entries { UniqueAppend(s.entries, BankDebit(s, k, suffix)); }
    case DoSettleInternal(k, uuid, _) =>
      if After(s, a).entries != s.entries {
        OutIsNotIn("stl_int_", uuid);
        var st := s.settlements[k];
        var pair := InternalEntries(s, k, BucketId(st.bucket.businessId, st.destination.bucketRef.value), uuid);
        UniquePair(s.entries, pair[0], pair[1]);
      }
    case _ =>
  }

  /** In every run no two ledger rows share a reference. */
  lemma {:induction false} ReferencesStayUnique(s: State, actions: seq<Action>)
    requires ReferencesUnique(s.entries)
    ensures ReferencesUnique(Run(s, actions).entries)
    decreases |actions|
  {
    if actions == [] {
    } else {
      StepKeepsUnique(s, actions[0]);
      ReferencesStayUnique(After(s, actions[0]), actions[1..]);
    }
  }

  lemma StepGrowsLedger(s: State, a: Action)
    ensures s.entries <= After(s, a).entries
  {
  }

  /** Rows are never changed or removed. */
  lemma {:induction false} LedgerOnlyGrows(s: State, actions: seq<Action>)
    ensures s.entries <= Run(s, actions).entries
    decreases |actions|
  {
    if actions == [] {
    } else {
      StepGrowsLedger(s, actions[0]);
      LedgerOnlyGrows(After(s, actions[0]), actions[1..]);
    }
  }

  /** Once a credit has committed, repeating it is a no-op forever, whatever ran in between and whatever
      bucket or amount the repetition names. */
  lemma RepeatedCreditIsNoOp(s: State, b: BucketId, amount: nat, reference: string, source: string, between: seq<Action>,
                             b': BucketId, amount': nat, source': string)
    requires Credit(s, b, amount, reference, source).Committed?
    ensures var t := Run(After(s, DoCredit(b, amount, reference, source)), between);
      After(t, DoCredit(b', amount', reference, source')) == t
  {
    var s1 := After(s, DoCredit(b, amount, reference, source));
    assert HasReference(s1.entries, reference) by {
      if s1 != s { assert s1.entries[|s.entries|].reference == reference; }
    }
    LedgerOnlyGrows(s1, between);
    var i :| 0 <= i < |s1.entries| && s1.entries[i].reference == reference;
    assert Run(s1, between).entries[i].reference == reference;
  }

  // ----- The replay loop

  /** How one run of the transaction ends: it gets to commit, it aborts with a serialization conflict
      (P2034), or it fails for another reason. */
  datatype Attempt = Commits | Conflicts | Fails

  /** The state just before attempt n, when other transactions `others(i)` commit before attempt i and
      none of the earlier attempts left a trace. */
  function Interleaved(s: State, others: nat -> seq<Action>, n: nat): State {
    if n == 0 then Run(s, others(0)) else Run(Interleaved(s, others, n - 1), others(n))
  }

  /** The number of runs the loop makes. */
  function Runs(outcomes: nat -> Attempt, maxRetries: nat, attempt: nat): nat
    requires attempt <= maxRetries
    decreases maxRetries - attempt
  {
    if outcomes(attempt) == Conflicts && attempt < maxRetries then Runs(outcomes, maxRetries, attempt + 1)
    else attempt + 1
  }

  lemma {:induction false} RunsIsFirstNonConflict(outcomes: nat -> Attempt, maxRetries: nat, attempt: nat)
    requires attempt <= maxRetries
    ensures attempt < Runs(outcomes, maxRetries, attempt) <= maxRetries + 1
    ensures forall i :: attempt <= i < Runs(outcomes, maxRetries, attempt) - 1 ==> outcomes(i) == Conflicts
    ensures outcomes(Runs(outcomes, maxRetries, attempt) - 1) == Conflicts
            ==> Runs(outcomes, maxRetries, attempt) == maxRetries + 1
    decreases maxRetries - attempt
  {
    if outcomes(attempt) != Conflicts || attempt == maxRetries {
    } else {
      RunsIsFirstNonConflict(outcomes, maxRetries, attempt + 1);
    }
  }
}
