/** Every write the relayer makes to a transaction record, as a step from the image it read to the image it saves
    (services/relayer/src/signer.ts, sweeper.ts, refusal.ts and store.ts).

    An event carries what came from outside: node answers, the clock, fresh signatures. `Enabled` is the branch the code
    must be in to make the write and `Apply` is what it writes, version included. */
module RelayerEvents {
  import opened Wrappers
  import opened ReplacementFees
  import opened RelayerRecords

  datatype Event =
    // processTx
    | NonceAssigned(nonce: nat)
    | FirstSigned(estimate: Fees, cap: Fees, attempt: Attempt)
    | SignerTaken(now: int)
    | SignerUnderpriced(message: string, now: int)
    | LeftToSweeper(now: int)
    | NonceGivenUp(message: string)
    | DependencyFailure(reason: string, now: int)
    // refuseAttempt
    | RefusalKept(hash: Hash, reason: string, now: int)
    | RefusalFailed(hash: Hash, reason: string, now: int, filler: Option<TxId>)
    // the sweeper
    | Requeued(now: int)
    | Reorged(now: int)
    | BecameConfirmed(now: int)
    | WalkStopped(walk: Walk, index: nat, asked: seq<Hash>)
    | WalkEnded
    | NonceSeenUsed(head: nat, now: int)
    | NonceSeenFree
    | NonceUsedFailure(head: nat, now: int, settings: Settings, asked: seq<Hash>)
    | MinedSeen(receipt: Receipt, now: int)
    | FeeCapFlagged
    | RetiredFullFlagged
    | Replaced(estimate: Fees, cap: Fees, attempt: Attempt)
    | ReplacementTaken(hash: Hash, now: int)
    | ReplacementRefused(hash: Hash, message: string, underpriced: bool)
    | Rebroadcast(index: nat, now: int)
    | BumpNeeded

  /** A signature as signAttempt makes it: bytes, their hash, and nothing answered yet. */
  predicate Fresh(a: Attempt) {
    a.raw.Bytes? && a.hash == a.raw.content && a.broadcastAt.None? && a.acceptedAt.None? && a.rejected.None?
  }

  predicate HasHash(tx: TxRecord, hash: Hash) { hash in Hashes(tx.attempts) }

  /** What one sweep of an all-URL walk has left to ask: the second look is for walks that were resumed. */
  function WalkEnd(tx: TxRecord): nat {
    if WalkStart(tx, AllUrls) > 0 then |WalkHashes(tx)| else |ReceiptHashes(tx)|
  }

  predicate Enabled(e: Event, tx: TxRecord) {
    match e
    case NonceAssigned(_) => tx.status == Queued && tx.nonce.None?
    case FirstSigned(estimate, cap, a) =>
      tx.status == Queued && tx.nonce.Some? && tx.attempts == [] && Fresh(a) && a.fees == ClampFees(estimate, cap)
    case SignerTaken(_) => tx.status == Queued && tx.attempts != []
    case SignerUnderpriced(_, _) => tx.status == Queued && tx.attempts != []
    case LeftToSweeper(_) => tx.status == Queued && tx.attempts != []
    case NonceGivenUp(_) => tx.status == Queued && tx.attempts != []
    case DependencyFailure(_, _) => tx.status == Queued && tx.nonce.None?
    case RefusalKept(hash, _, _) =>
      (tx.status == Queued || tx.status == Submitted) && tx.lookupFrom.None? && HasHash(tx, hash) && MayBeMined(tx, hash)
    case RefusalFailed(hash, _, _, filler) =>
      && (tx.status == Queued || tx.status == Submitted) && tx.lookupFrom.None?
      && HasHash(tx, hash) && !MayBeMined(tx, hash)
      && (filler.Some? <==> tx.kind == Relay)
    case Requeued(_) => tx.status == Queued
    case Reorged(_) => tx.status == Mined
    case BecameConfirmed(_) => tx.status == Mined
    case WalkStopped(Receipts, index, asked) => tx.status == Submitted && index < |ReceiptHashes(tx)| && asked == []
    case WalkStopped(AllUrls, index, asked) =>
      && tx.status == Submitted && WalkStart(tx, AllUrls) <= index < WalkEnd(tx) <= |WalkHashes(tx)|
      && asked == WalkHashes(tx)[WalkStart(tx, AllUrls)..index]
    case WalkEnded => tx.status == Submitted && tx.lookupFrom.Some?
    case NonceSeenUsed(_, _) => tx.status == Submitted && (tx.nonceUsedAtBlock.None? || tx.nonceUsedAt.None?)
    case NonceSeenFree =>
      tx.status == Submitted && (tx.nonceUsedAtBlock.Some? || tx.nonceUsedAt.Some? || tx.lookupFrom.Some?)
    case NonceUsedFailure(head, now, settings, asked) =>
      && tx.status == Submitted && ReadyToFail(tx, head, now, settings)
      && WalkStart(tx, AllUrls) <= WalkEnd(tx) <= |WalkHashes(tx)|
      && asked == WalkHashes(tx)[WalkStart(tx, AllUrls)..WalkEnd(tx)]
    case MinedSeen(_, _) => tx.status == Submitted
    case FeeCapFlagged => tx.status == Submitted && !tx.feeCapReached
    case RetiredFullFlagged => tx.status == Submitted && !tx.retiredHashesFull
    case Replaced(estimate, cap, a) =>
      && tx.status == Submitted && tx.lookupFrom.None?
      && Fresh(a) && Decide(tx, estimate, cap) == Sign(a.fees)
    case ReplacementTaken(hash, _) => tx.status == Submitted && HasHash(tx, hash)
    case ReplacementRefused(hash, _, _) => tx.status == Submitted && HasHash(tx, hash)
    case Rebroadcast(index, _) =>
      && tx.status == Submitted && index < |tx.attempts| && tx.attempts[index].raw.Bytes?
      && !(tx.attempts[index].rejected.None? && tx.attempts[index].acceptedAt.Some?)
    case BumpNeeded => tx.status == Submitted && !tx.needsBump
  }

  // The write of replace

  function RemoveAt<T>(s: seq<T>, i: nat): seq<T>
    requires i < |s|
  {
    s[..i] + s[i + 1..]
  }

  /** The attempt that goes to make room, when the record is full. */
  function Dropped(tx: TxRecord): (r: Option<nat>)
    ensures r.Some? ==> r.value < |tx.attempts| && tx.attempts[r.value].rejected.Some?
  {
    if |tx.attempts| >= MAX_STORED_ATTEMPTS then DropIndex(tx.attempts) else None
  }

  function Kept(tx: TxRecord): seq<Attempt> {
    if Dropped(tx).Some? then RemoveAt(tx.attempts, Dropped(tx).value) else tx.attempts
  }

  function RetiredWith(tx: TxRecord): seq<Hash> {
    if Dropped(tx).None? then tx.retiredHashes
    else
      var hash := tx.attempts[Dropped(tx).value].hash;
      if hash in Hashes(Kept(tx)) || hash in tx.retiredHashes then tx.retiredHashes else tx.retiredHashes + [hash]
  }

  function RetiredAcceptedWith(tx: TxRecord): bool {
    tx.retiredAccepted || (Dropped(tx).Some? && tx.attempts[Dropped(tx).value].acceptedAt.Some?)
  }

  /** One attempt after its bytes went out again and a node took them. */
  function TakenAgain(a: Attempt, sent: Attempt, now: int): Attempt {
    var marked := AcceptOne(a, sent.hash, now);
    if a.hash != sent.hash || a.raw != sent.raw then marked
    else if sent.rejected.None? then marked.(broadcastAt := Some(now))
    else marked.(rejected := None, broadcastAt := Some(now))
  }

  function TakenAgainAll(attempts: seq<Attempt>, sent: Attempt, now: int): (r: seq<Attempt>)
    ensures |r| == |attempts| && forall i :: 0 <= i < |r| ==> r[i] == TakenAgain(attempts[i], sent, now)
  {
    seq(|attempts|, i requires 0 <= i < |attempts| => TakenAgain(attempts[i], sent, now))
  }

  function LastFour<T>(s: seq<T>): seq<T> {
    if |s| <= MAX_ABANDONED_ATTEMPTS then s else s[|s| - MAX_ABANDONED_ATTEMPTS..]
  }

  /** What is on file after a nonce is given up: of the old entries and these attempts, stripped, the last four. */
  function AbandonedWith(tx: TxRecord, message: string): seq<Abandoned>
    requires tx.nonce.Some?
  {
    var given := seq(|tx.attempts|, i requires 0 <= i < |tx.attempts| =>
                       Abandoned(tx.attempts[i].(raw := Stripped, rejected := Some(message)), tx.nonce.value));
    LastFour(tx.abandoned + given)
  }

  function LatestHash(tx: TxRecord): Hash
    requires tx.attempts != []
  {
    tx.attempts[|tx.attempts| - 1].hash
  }

  // The write, one column of the record at a time: an event not named leaves the column alone

  function NextStatus(e: Event, tx: TxRecord): Status {
    match e
    case SignerTaken(_) => Submitted
    case SignerUnderpriced(_, _) => Submitted
    case LeftToSweeper(_) => Submitted
    case RefusalKept(_, _, _) => Submitted
    case Reorged(_) => Submitted
    case MinedSeen(_, _) => Mined
    case BecameConfirmed(_) => Confirmed
    case DependencyFailure(_, _) => Failed
    case RefusalFailed(_, _, _, _) => Failed
    case NonceUsedFailure(_, _, _, _) => Failed
    case _ => tx.status
  }

  function Clock(e: Event): int {
    match e
    case SignerTaken(now) => now
    case SignerUnderpriced(_, now) => now
    case LeftToSweeper(now) => now
    case RefusalKept(_, _, now) => now
    case Reorged(now) => now
    case MinedSeen(_, now) => now
    case BecameConfirmed(now) => now
    case DependencyFailure(_, now) => now
    case RefusalFailed(_, _, now, _) => now
    case NonceUsedFailure(_, now, _, _) => now
    case _ => 0
  }

  function NextNonce(e: Event, tx: TxRecord): Option<nat> {
    match e
    case NonceAssigned(nonce) => Some(nonce)
    case NonceGivenUp(_) => None
    case _ => tx.nonce
  }

  function NextAttempts(e: Event, tx: TxRecord): seq<Attempt>
    requires Enabled(e, tx)
  {
    match e
    case FirstSigned(_, _, a) => [a]
    case SignerTaken(now) => MarkAccepted(tx.attempts, LatestHash(tx), now)
    case SignerUnderpriced(message, _) => MarkRejected(tx.attempts, LatestHash(tx), message)
    case NonceGivenUp(_) => []
    case RefusalKept(hash, reason, _) => MarkRejected(tx.attempts, hash, reason)
    case RefusalFailed(hash, reason, _, _) => MarkRejected(tx.attempts, hash, reason)
    case MinedSeen(receipt, now) => MarkAccepted(tx.attempts, receipt.hash, now)
    case Replaced(_, _, a) => MakeRoom(Kept(tx)) + [a]
    case ReplacementTaken(hash, now) => MarkAccepted(tx.attempts, hash, now)
    case ReplacementRefused(hash, message, _) => MarkRejected(tx.attempts, hash, message)
    case Rebroadcast(index, now) => TakenAgainAll(tx.attempts, tx.attempts[index], now)
    case _ => tx.attempts
  }

  function NextRetired(e: Event, tx: TxRecord): seq<Hash> {
    if e.Replaced? then RetiredWith(tx) else tx.retiredHashes
  }

  function NextRetiredAccepted(e: Event, tx: TxRecord): bool {
    match e
    case Replaced(_, _, _) => RetiredAcceptedWith(tx)
    case MinedSeen(receipt, _) => tx.retiredAccepted || !HasHash(tx, receipt.hash)
    case _ => tx.retiredAccepted
  }

  function NextLookup(e: Event, tx: TxRecord): Option<Lookup> {
    match e
    case WalkStopped(walk, index, _) => Some(Lookup(walk, index))
    case WalkEnded => None
    case NonceSeenUsed(_, _) => None
    case NonceSeenFree => None
    case NonceUsedFailure(_, _, _, _) => None
    case MinedSeen(_, _) => None
    case _ => tx.lookupFrom
  }

  /** Bytes a node refused once and has taken now. */
  predicate Revives(e: Event, tx: TxRecord) {
    e.Rebroadcast? && e.index < |tx.attempts| && tx.attempts[e.index].rejected.Some?
  }

  function NextNeedsBump(e: Event, tx: TxRecord): bool {
    match e
    case SignerUnderpriced(_, _) => true
    case BumpNeeded => true
    case ReplacementRefused(_, _, underpriced) => tx.needsBump || underpriced
    case MinedSeen(_, _) => false
    case Replaced(_, _, _) => false
    case _ => tx.needsBump && !Revives(e, tx)
  }

  function NextFeeCapReached(e: Event, tx: TxRecord): bool {
    match e
    case FeeCapFlagged => true
    case ReplacementTaken(_, _) => false
    case _ => tx.feeCapReached && !Revives(e, tx)
  }

  function NextMined(e: Event, tx: TxRecord): Option<Receipt> {
    match e
    case MinedSeen(receipt, _) => Some(receipt)
    case Reorged(_) => None
    case _ => tx.mined
  }

  function NextUsedAtBlock(e: Event, tx: TxRecord): Option<nat> {
    match e
    case NonceSeenUsed(head, _) => if tx.nonceUsedAtBlock.Some? then tx.nonceUsedAtBlock else Some(head)
    case NonceSeenFree => None
    case MinedSeen(_, _) => None
    case _ => tx.nonceUsedAtBlock
  }

  function NextUsedAt(e: Event, tx: TxRecord): Option<int> {
    match e
    case NonceSeenUsed(_, now) => Some(now)
    case NonceSeenFree => None
    case MinedSeen(_, _) => None
    case _ => tx.nonceUsedAt
  }

  function NextError(e: Event, tx: TxRecord): Option<TxError> {
    match e
    case DependencyFailure(reason, _) => Some(DependencyFailed(reason))
    case RefusalFailed(_, reason, _, _) => Some(Refused(reason))
    case NonceUsedFailure(_, _, _, _) => Some(NonceUsed)
    case _ => tx.error
  }

  function NextFiller(e: Event, tx: TxRecord): Option<TxId> {
    if e.RefusalFailed? && e.filler.Some? then e.filler else tx.fillerTxId
  }

  /** The record a write hands to the store. */
  function Image(e: Event, tx: TxRecord): TxRecord
    requires Enabled(e, tx)
  {
    WithStatus(tx, NextStatus(e, tx), Clock(e)).(
    nonce := NextNonce(e, tx),
    attempts := NextAttempts(e, tx),
    abandoned := if e.NonceGivenUp? && tx.nonce.Some? then AbandonedWith(tx, e.message) else tx.abandoned,
    retiredHashes := NextRetired(e, tx),
    retiredAccepted := NextRetiredAccepted(e, tx),
    retiredHashesFull := tx.retiredHashesFull || e.RetiredFullFlagged?,
    lookupFrom := NextLookup(e, tx),
    needsBump := NextNeedsBump(e, tx),
    feeCapReached := NextFeeCapReached(e, tx),
    mined := NextMined(e, tx),
    nonceUsedAtBlock := NextUsedAtBlock(e, tx),
    nonceUsedAt := NextUsedAt(e, tx),
    error := NextError(e, tx),
    fillerTxId := NextFiller(e, tx),
    enqueuedAt := if e.Requeued? then e.now else tx.enqueuedAt,
    enqueues := if e.Requeued? then tx.enqueues + 1 else tx.enqueues)
  }

  /** The record as saveTx stores it. */
  function Apply(e: Event, tx: TxRecord): TxRecord
    requires Enabled(e, tx)
  {
    Image(e, tx).(version := tx.version + 1)
  }

  // Initial records

  predicate Initial(tx: TxRecord) {
    && tx.status == Queued && tx.version == 1
    && (tx.kind == Filler <==> tx.nonce.Some?) && (tx.kind == Filler <==> tx.fillsTxId.Some?)
    && tx.attempts == [] && tx.abandoned == [] && tx.retiredHashes == []
    && !tx.retiredAccepted && !tx.retiredHashesFull && !tx.needsBump && !tx.feeCapReached
    && tx.lookupFrom.None? && tx.mined.None? && tx.nonceUsedAtBlock.None? && tx.nonceUsedAt.None?
    && tx.error.None? && tx.fillerTxId.None?
    && tx.historyBase == 0 && |tx.history| == 1 && tx.history[0].status == Queued
  }

  // What every image keeps

  /** At most so many attempts, signed attempts, retired hashes and abandoned attempts. */
  predicate Bounded(tx: TxRecord) {
    && |tx.attempts| <= MAX_STORED_ATTEMPTS && Signed(tx.attempts) <= MAX_SIGNED_ATTEMPTS
    && |tx.retiredHashes| <= MAX_RETIRED_HASHES && |tx.abandoned| <= MAX_ABANDONED_ATTEMPTS
  }

  /** Bytes hash to the hash beside them, and a signature no node refused still has its bytes. */
  predicate Backed(attempts: seq<Attempt>) {
    forall i :: 0 <= i < |attempts| ==>
      && (attempts[i].raw.Bytes? ==> attempts[i].hash == attempts[i].raw.content)
      && (attempts[i].rejected.None? ==> attempts[i].raw.Bytes?)
  }

  /** Before it is submitted, a record has at most one signature, and nothing is known of it. */
  predicate Untouched(tx: TxRecord) {
    && |tx.attempts| <= 1 && (tx.nonce.None? ==> tx.attempts == [])
    && (forall i :: 0 <= i < |tx.attempts| ==> Fresh(tx.attempts[i]))
    && tx.retiredHashes == [] && !tx.retiredAccepted && tx.lookupFrom.None? && tx.mined.None?
    && tx.error.None? && tx.fillerTxId.None?
  }

  predicate QueuedShape(tx: TxRecord) { tx.status == Queued ==> Untouched(tx) }

  predicate IsActive(tx: TxRecord) { tx.status == Submitted || tx.status == Mined || tx.status == Confirmed }

  /** A submitted, mined or confirmed record holds a nonce and signatures at it. */
  predicate ActiveShape(tx: TxRecord) {
    IsActive(tx) ==>
      && tx.nonce.Some? && tx.attempts != [] && tx.error.None? && tx.fillerTxId.None?
      && (tx.status == Submitted <==> tx.mined.None?)
  }

  predicate MinedShape(tx: TxRecord) { tx.status == Mined || tx.status == Confirmed ==> Taken(tx) }

  /** A failed record says why; only a refused relay transaction handed its nonce to a filler. */
  predicate FailedShape(tx: TxRecord) {
    && tx.status != Cancelled && (tx.kind == Filler <==> tx.fillsTxId.Some?)
    && (tx.status == Failed ==>
          && tx.error.Some?
          && (tx.error.value.DependencyFailed? <==> tx.nonce.None?)
          && (tx.fillerTxId.Some? <==> tx.error.value.Refused? && tx.kind == Relay))
  }

  predicate WalkShape(tx: TxRecord) {
    && (tx.lookupFrom.Some? ==> tx.status == Submitted)
    && WalkStart(tx, AllUrls) <= WalkEnd(tx) <= |WalkHashes(tx)|
  }

  /** What goes with each status. */
  predicate Shaped(tx: TxRecord) {
    QueuedShape(tx) && ActiveShape(tx) && MinedShape(tx) && FailedShape(tx) && WalkShape(tx)
  }

  predicate LogsItsStatus(tx: TxRecord) {
    0 < |tx.history| <= MAX_HISTORY && tx.history[|tx.history| - 1].status == tx.status
  }

  predicate Good(tx: TxRecord) { Bounded(tx) && Backed(tx.attempts) && Shaped(tx) && LogsItsStatus(tx) }

  lemma InitialIsGood(tx: TxRecord)
    requires Initial(tx)
    ensures Good(tx)
  {
  }
}
