/** Treasury tables and the atomic steps that change them. One database transaction, one status
    update or one outcome of the external transfer is one step; a run is any sequence of steps. */
module Treasury {
  import opened Wrappers
  import opened AccountStatuses
  import opened BucketLedger

  datatype SettlementStatus = PENDING | PROCESSING | COMPLETED | FAILED

  /** Where a settlement sends its money. `hasDetails`: account number, bank code and name are all known. */
  datatype Destination =
    | ToBank(hasDetails: bool)
    | ToBucket(bucketRef: Option<string>)

  /** How far the request that owns a settlement has got. Not a column. */
  datatype Phase =
    | Reserved    // first transaction committed
    | Processing  // PROCESSING written, the transfer is about to run
    | Accepted    // the bank transfer was accepted, second transaction not yet committed
    | Failing     // an exception reached the catch block
    | Finished    // COMPLETED or FAILED written
    | Abandoned   // the process died, or the FAILED write itself failed

  datatype Settlement = Settlement(
    id: string,
    bucket: BucketId,
    amountKobo: nat,
    status: SettlementStatus,
    destination: Destination,
    phase: Phase,
    nombaAccepted: bool)

  /** A request to close a bucket, between its statements, with what it has read so far. */
  datatype Closing = Closing(bucket: BucketId, progress: ClosingProgress)

  datatype ClosingProgress =
    | StatusRead                 // the bucket was found and not CLOSED
    | BalanceRead(balance: int)
    | FoundEmpty                 // balance and reservations were read as zero; the update comes next
    | Over

  datatype State = State(
    buckets: map<BucketId, AccountStatus>,
    entries: seq<Entry>,
    settlements: seq<Settlement>,
    closings: seq<Closing>)

  const INITIAL := State(map[], [], [], [])

  datatype Error =
    | ValidationError
    | BucketNotFound
    | DuplicateBucketRef
    | BucketNotActive
    | AlreadyClosed
    | InsufficientBalance
    | UniqueViolation
    | TransactionFailed
    | NotEnabled

  datatype Outcome = Committed(state: State) | Rejected(error: Error)

  // ----- Reads

  predicate Holds(st: Settlement, b: BucketId) {
    st.bucket == b && (st.status == PENDING || st.status == PROCESSING)
  }

  /** SUM(amountKobo) of the bucket's PENDING and PROCESSING settlements. */
  function ReservedKobo(settlements: seq<Settlement>, b: BucketId): nat {
    if settlements == [] then 0
    else
      var last := settlements[|settlements| - 1];
      ReservedKobo(settlements[..|settlements| - 1], b) + (if Holds(last, b) then last.amountKobo else 0)
  }

  function Balance(s: State, b: BucketId): int {
    ComputeBalance(s.entries, b)
  }

  function ReservedOn(s: State, b: BucketId): nat {
    ReservedKobo(s.settlements, b)
  }

  // ----- Bucket administration

  function Provision(s: State, b: BucketId): Outcome {
    if b in s.buckets then Rejected(DuplicateBucketRef)
    else Committed(s.(buckets := s.buckets[b := ACTIVE]))
  }

  /** The statements of closeBucket, each its own access: three reads, then an update by id. */
  datatype ClosingStep =
    | Ask(bucket: BucketId)
    | ReadBalance(closing: nat)
    | ReadReserved(closing: nat)
    | WriteClosed(closing: nat)

  predicate ClosingAt(s: State, c: nat, progress: ClosingProgress) {
    c < |s.closings| && s.closings[c].progress == progress
  }

  function MoveClosing(s: State, c: nat, progress: ClosingProgress): State
    requires c < |s.closings|
  {
    s.(closings := s.closings[c := s.closings[c].(progress := progress)])
  }

  function CloseBucket(s: State, step: ClosingStep): Outcome {
    match step
    case Ask(b) =>
      if b !in s.buckets then Rejected(BucketNotFound)
      else if s.buckets[b] == CLOSED then Rejected(AlreadyClosed)
      else Committed(s.(closings := s.closings + [Closing(b, StatusRead)]))
    case ReadBalance(c) =>
      if !ClosingAt(s, c, StatusRead) then Rejected(NotEnabled)
      else Committed(MoveClosing(s, c, BalanceRead(Balance(s, s.closings[c].bucket))))
    case ReadReserved(c) =>
      if c >= |s.closings| || !s.closings[c].progress.BalanceRead? then Rejected(NotEnabled)
      else if s.closings[c].progress.balance != 0 || ReservedOn(s, s.closings[c].bucket) != 0
      then Committed(MoveClosing(s, c, Over))
      else Committed(MoveClosing(s, c, FoundEmpty))
    case WriteClosed(c) =>
      if !ClosingAt(s, c, FoundEmpty) || s.closings[c].bucket !in s.buckets then Rejected(NotEnabled)
      else Committed(MoveClosing(s, c, Over).(buckets := s.buckets[s.closings[c].bucket := CLOSED]))
  }

  // ----- Allocation credit (idempotent on its reference)

  function CreditEntry(s: State, b: BucketId, amount: nat, reference: string, source: string): Entry {
    Entry(b, CREDIT, amount, Balance(s, b) + amount, reference, Allocation(source))
  }

  function Credit(s: State, b: BucketId, amount: nat, reference: string, source: string): Outcome {
    if HasReference(s.entries, reference) then Committed(s)
    else if b !in s.buckets then Rejected(BucketNotFound)
    else Committed(s.(entries := s.entries + [CreditEntry(s, b, amount, reference, source)]))
  }

  // ----- Transfer between two buckets of one business

  function TransferEntries(s: State, source: BucketId, dest: BucketId, amount: nat, uuid: string): seq<Entry> {
    [Entry(source, DEBIT, amount, Balance(s, source) - amount, "xfer_" + uuid + "_out", TransferOut)]
    + [Entry(dest, CREDIT, amount, Balance(s, dest) + amount, "xfer_" + uuid + "_in", TransferIn)]
  }

  function Transfer(s: State, business: string, sourceRef: string, destRef: string, amount: nat, uuid: string): Outcome {
    var source, dest := BucketId(business, sourceRef), BucketId(business, destRef);
    if amount < 1 || destRef == sourceRef then Rejected(ValidationError)
    else if source !in s.buckets || dest !in s.buckets then Rejected(BucketNotFound)
    else if s.buckets[source] != ACTIVE || s.buckets[dest] != ACTIVE then Rejected(BucketNotActive)
    else if Balance(s, source) < amount then Rejected(InsufficientBalance)
    else if HasReference(s.entries, "xfer_" + uuid + "_out") || HasReference(s.entries, "xfer_" + uuid + "_in")
    then Rejected(UniqueViolation)
    else Committed(s.(entries := s.entries + TransferEntries(s, source, dest, amount, uuid)))
  }

  // ----- Settlement: reserve, process, transfer, complete or fail

  predicate HasSettlement(settlements: seq<Settlement>, id: string) {
    exists i :: 0 <= i < |settlements| && settlements[i].id == id
  }

  /** First transaction. `statusSeen` is the bucket status read before it, which may be out of date. */
  function Reserve(s: State, b: BucketId, id: string, amount: nat, destination: Destination,
                   statusSeen: AccountStatus): Outcome
  {
    if amount < 1 then Rejected(ValidationError)
    else if b !in s.buckets then Rejected(BucketNotFound)
    else if statusSeen != ACTIVE then Rejected(BucketNotActive)
    else if LatestBalance(s.entries, b) - ReservedOn(s, b) < amount then Rejected(InsufficientBalance)
    else if HasSettlement(s.settlements, id) then Rejected(UniqueViolation)
    else Committed(s.(settlements := s.settlements
                                     + [Settlement(id, b, amount, PENDING, destination, Reserved, false)]))
  }

  function Update(s: State, k: nat, st: Settlement): State
    requires k < |s.settlements|
  {
    s.(settlements := s.settlements[k := st])
  }

  predicate InPhase(s: State, k: nat, phase: Phase) {
    k < |s.settlements| && s.settlements[k].phase == phase
  }

  function MarkProcessing(s: State, k: nat): Outcome {
    if !InPhase(s, k, Reserved) then Rejected(NotEnabled)
    else Committed(Update(s, k, s.settlements[k].(status := PROCESSING, phase := Processing)))
  }

  /** The external part of the try block: missing details throw, the bank transfer is accepted or throws. */
  function CallNomba(s: State, k: nat, accepts: bool): Outcome {
    if !InPhase(s, k, Processing) then Rejected(NotEnabled)
    else
      var st := s.settlements[k];
      match st.destination
      case ToBank(true) =>
        if accepts then Committed(Update(s, k, st.(phase := Accepted, nombaAccepted := true)))
        else Committed(Update(s, k, st.(phase := Failing)))
      case ToBank(false) => Committed(Update(s, k, st.(phase := Failing)))
      case ToBucket(None) => Committed(Update(s, k, st.(phase := Failing)))
      case ToBucket(Some(_)) => Rejected(NotEnabled)
  }

  function Complete(st: Settlement): Settlement {
    st.(status := COMPLETED, phase := Finished)
  }

  function BankReference(st: Settlement, suffix: string): string {
    "stl_" + "stl_" + st.id + "_" + suffix
  }

  function BankDebit(s: State, k: nat, suffix: string): Entry
    requires k < |s.settlements|
  {
    var st := s.settlements[k];
    Entry(st.bucket, DEBIT, st.amountKobo, LatestBalance(s.entries, st.bucket) - st.amountKobo,
          BankReference(st, suffix), SettledToBank(k))
  }

  /** Second transaction after an accepted bank transfer. When it aborts the catch block takes over. */
  function CompleteBank(s: State, k: nat, suffix: string, aborts: bool): Outcome {
    if !InPhase(s, k, Accepted) then Rejected(NotEnabled)
    else
      var st := s.settlements[k];
      if aborts || HasReference(s.entries, BankReference(st, suffix))
      then Committed(Update(s, k, st.(phase := Failing)))
      else Committed(Update(s, k, Complete(st)).(entries := s.entries + [BankDebit(s, k, suffix)]))
  }

  function InternalEntries(s: State, k: nat, dest: BucketId, uuid: string): seq<Entry>
    requires k < |s.settlements|
  {
    var st := s.settlements[k];
    [Entry(st.bucket, DEBIT, st.amountKobo, Balance(s, st.bucket) - st.amountKobo,
           "stl_int_" + uuid + "_out", SettledOut(k))]
    + [Entry(dest, CREDIT, st.amountKobo, Balance(s, dest) + st.amountKobo,
             "stl_int_" + uuid + "_in", SettledIn(k, st.bucket))]
  }

  /** Second transaction of an internal settlement. There is no check that the two buckets differ. */
  function SettleInternal(s: State, k: nat, uuid: string, aborts: bool): Outcome {
    if !InPhase(s, k, Processing) || s.settlements[k].destination.ToBank?
       || s.settlements[k].destination.bucketRef.None? then Rejected(NotEnabled)
    else
      var st := s.settlements[k];
      var dest := BucketId(st.bucket.businessId, st.destination.bucketRef.value);
      if aborts || dest !in s.buckets || HasReference(s.entries, "stl_int_" + uuid + "_out")
         || HasReference(s.entries, "stl_int_" + uuid + "_in")
      then Committed(Update(s, k, st.(phase := Failing)))
      else Committed(Update(s, k, Complete(st)).(entries := s.entries + InternalEntries(s, k, dest, uuid)))
  }

  /** The catch block. Its own write may fail silently, which leaves the reservation in place. */
  function MarkFailed(s: State, k: nat, written: bool): Outcome {
    if !InPhase(s, k, Failing) then Rejected(NotEnabled)
    else if written then Committed(Update(s, k, s.settlements[k].(status := FAILED, phase := Finished)))
    else Committed(Update(s, k, s.settlements[k].(phase := Abandoned)))
  }

  function Crash(s: State, k: nat): Outcome {
    if k >= |s.settlements| || s.settlements[k].phase == Finished then Rejected(NotEnabled)
    else Committed(Update(s, k, s.settlements[k].(phase := Abandoned)))
  }

  // ----- Runs

  datatype Action =
    | DoProvision(bucket: BucketId)
    | DoClosing(step: ClosingStep)
    | DoCredit(bucket: BucketId, amount: nat, reference: string, source: string)
    | DoTransfer(business: string, sourceRef: string, destRef: string, amount: nat, uuid: string)
    | DoReserve(bucket: BucketId, id: string, amount: nat, destination: Destination, statusSeen: AccountStatus)
    | DoMarkProcessing(settlement: nat)
    | DoCallNomba(settlement: nat, accepts: bool)
    | DoCompleteBank(settlement: nat, suffix: string, aborts: bool)
    | DoSettleInternal(settlement: nat, uuid: string, aborts: bool)
    | DoMarkFailed(settlement: nat, written: bool)
    | DoCrash(settlement: nat)

  function Step(s: State, a: Action): Outcome {
    match a
    case DoProvision(b) => Provision(s, b)
    case DoClosing(step) => CloseBucket(s, step)
    case DoCredit(b, amount, reference, source) => Credit(s, b, amount, reference, source)
    case DoTransfer(business, src, dst, amount, uuid) => Transfer(s, business, src, dst, amount, uuid)
    case DoReserve(b, id, amount, destination, seen) => Reserve(s, b, id, amount, destination, seen)
    case DoMarkProcessing(k) => MarkProcessing(s, k)
    case DoCallNomba(k, accepts) => CallNomba(s, k, accepts)
    case DoCompleteBank(k, suffix, aborts) => CompleteBank(s, k, suffix, aborts)
    case DoSettleInternal(k, uuid, aborts) => SettleInternal(s, k, uuid, aborts)
    case DoMarkFailed(k, written) => MarkFailed(s, k, written)
    case DoCrash(k) => Crash(s, k)
  }

  /** A rejected step has rolled back. */
  function After(s: State, a: Action): State {
    match Step(s, a)
    case Committed(t) => t
    case Rejected(_) => s
  }

  function Run(s: State, actions: seq<Action>): State
    decreases |actions|
  {
    if actions == [] then s else Run(After(s, actions[0]), actions[1..])
  }

  lemma {:induction false} RunConcat(s: State, a: seq<Action>, b: seq<Action>)
    ensures Run(s, a + b) == Run(Run(s, a), b)
    decreases |a|
  {
    if a == [] {
      assert a + b == b;
    } else {
      assert (a + b)[1..] == a[1..] + b;
      RunConcat(After(s, a[0]), a[1..], b);
    }
  }

  lemma RunSnoc(s: State, actions: seq<Action>, a: Action)
    ensures Run(s, actions + [a]) == After(Run(s, actions), a)
  {
    RunConcat(s, actions, [a]);
    assert [a][1..] == [];
    assert Run(After(Run(s, actions), a), []) == After(Run(s, actions), a);
  }

  // ----- Reservations under an update and an append

  lemma {:induction false} ReservedUpdate(settlements: seq<Settlement>, k: nat, st: Settlement, b: BucketId)
    requires k < |settlements|
    ensures ReservedKobo(settlements[k := st], b)
         == ReservedKobo(settlements, b)
            - (if Holds(settlements[k], b) then settlements[k].amountKobo else 0)
            + (if Holds(st, b) then st.amountKobo else 0)
    decreases |settlements|
  {
    var n := |settlements| - 1;
    if k == n {
      assert settlements[k := st][..n] == settlements[..n];
    } else {
      assert settlements[k := st][..n] == settlements[..n][k := st];
      ReservedUpdate(settlements[..n], k, st, b);
    }
  }

  lemma ReservedAppend(settlements: seq<Settlement>, st: Settlement, b: BucketId)
    ensures ReservedKobo(settlements + [st], b)
         == ReservedKobo(settlements, b) + (if Holds(st, b) then st.amountKobo else 0)
  {
    assert (settlements + [st])[..|settlements|] == settlements;
  }
}
