/** The relayer's transaction record and the pure functions over it (services/relayer/src/records.ts, the expressions
    of sweeper.ts, and mayBeMined of refusal.ts).

    Times are milliseconds. Signed bytes are identified by a number and hash to it: keccak is taken as injective. */
module RelayerRecords {
  import opened Wrappers
  import opened ReplacementFees

  const MAX_ATTEMPTS: nat := 10
  const MAX_SIGNED_ATTEMPTS: nat := 16
  const MAX_STORED_ATTEMPTS: nat := 64
  const MAX_RETIRED_HASHES: nat := 512
  const MAX_ABANDONED_ATTEMPTS: nat := 4
  const MAX_HISTORY: nat := 64

  type Hash = nat
  type TxId = nat

  /** A nonce counter belongs to one signer on one chain. */
  datatype Pair = Pair(signer: nat, chain: nat)

  /** `0x` once the bytes were dropped. */
  datatype Raw = Stripped | Bytes(content: nat)

  datatype Attempt = Attempt(
    hash: Hash,
    raw: Raw,
    fees: Fees,
    signedAt: int,
    broadcastAt: Option<int>,
    acceptedAt: Option<int>,
    rejected: Option<string>)

  datatype Abandoned = Abandoned(attempt: Attempt, nonce: nat)

  datatype Receipt = Receipt(hash: Hash, blockNumber: nat, blockHash: nat, success: bool)

  datatype Walk = Receipts | AllUrls

  datatype Lookup = Lookup(walk: Walk, index: nat)

  datatype Kind = Relay | Filler

  datatype Status = Queued | Submitted | Mined | Confirmed | Failed | Cancelled

  /** The `error` text of a failed transaction, by what wrote it. */
  datatype TxError = Refused(reason: string) | NonceUsed | DependencyFailed(reason: string)

  datatype HistoryEntry = HistoryEntry(status: Status, at: int)

  datatype TxRecord = TxRecord(
    txId: TxId,
    kind: Kind,
    pair: Pair,
    value: nat,
    gasLimit: nat,
    status: Status,
    nonce: Option<nat>,
    attempts: seq<Attempt>,
    abandoned: seq<Abandoned>,
    retiredHashes: seq<Hash>,
    retiredAccepted: bool,
    retiredHashesFull: bool,
    lookupFrom: Option<Lookup>,
    needsBump: bool,
    feeCapReached: bool,
    mined: Option<Receipt>,
    nonceUsedAtBlock: Option<nat>,
    nonceUsedAt: Option<int>,
    error: Option<TxError>,
    fillerTxId: Option<TxId>,
    fillsTxId: Option<TxId>,
    dependsOn: Option<TxId>,
    enqueuedAt: int,
    enqueues: nat,
    historyBase: nat,
    history: seq<HistoryEntry>,
    createdAt: int,
    version: nat)

  // records.ts

  datatype DependencyState = DependencyReady | DependencyWaiting | DependencyUnsuccessful

  /** Of the settled states, confirmed alone is a success; a mined dependency is waited for. */
  function DependencyStateOf(dependency: Option<TxRecord>): DependencyState {
    match dependency
    case None => DependencyUnsuccessful
    case Some(tx) =>
      if tx.status == Confirmed then
        if tx.mined.Some? && tx.mined.value.success then DependencyReady else DependencyUnsuccessful
      else if tx.status == Failed || tx.status == Cancelled then DependencyUnsuccessful
      else DependencyWaiting
  }

  function HistoryCount(tx: TxRecord): nat { tx.historyBase + |tx.history| }

  /** A history with one more entry, cut at the front to its greatest length, and how many were cut off in all. */
  function AddEntry(history: seq<HistoryEntry>, base: nat, entry: HistoryEntry): (seq<HistoryEntry>, nat) {
    var longer := history + [entry];
    if |longer| <= MAX_HISTORY then (longer, base)
    else
      var dropped := |longer| - MAX_HISTORY;
      (longer[dropped..], base + dropped)
  }

  function WithStatus(tx: TxRecord, status: Status, at: int): TxRecord {
    if tx.status == status then tx
    else
      var added := AddEntry(tx.history, tx.historyBase, HistoryEntry(status, at));
      tx.(status := status, history := added.0, historyBase := added.1)
  }

  function AcceptOne(a: Attempt, hash: Hash, at: int): Attempt {
    if a.hash == hash && a.acceptedAt.None? then a.(acceptedAt := Some(at)) else a
  }

  function MarkAccepted(attempts: seq<Attempt>, hash: Hash, at: int): (r: seq<Attempt>)
    ensures |r| == |attempts| && forall i :: 0 <= i < |r| ==> r[i] == AcceptOne(attempts[i], hash, at)
  {
    seq(|attempts|, i requires 0 <= i < |attempts| => AcceptOne(attempts[i], hash, at))
  }

  function RejectOne(a: Attempt, hash: Hash, reason: string): Attempt {
    if a.hash == hash then a.(rejected := Some(reason)) else a
  }

  function MarkRejected(attempts: seq<Attempt>, hash: Hash, reason: string): (r: seq<Attempt>)
    ensures |r| == |attempts| && forall i :: 0 <= i < |r| ==> r[i] == RejectOne(attempts[i], hash, reason)
  {
    seq(|attempts|, i requires 0 <= i < |attempts| => RejectOne(attempts[i], hash, reason))
  }

  /** The position of the last attempt without a refusal. */
  function LiveIndex(attempts: seq<Attempt>): (r: Option<nat>)
    ensures r.Some? ==> r.value < |attempts| && attempts[r.value].rejected.None?
    ensures r.None? ==> forall i :: 0 <= i < |attempts| ==> attempts[i].rejected.Some?
    ensures r.Some? ==> forall i :: r.value < i < |attempts| ==> attempts[i].rejected.Some?
  {
    if attempts == [] then None
    else if attempts[|attempts| - 1].rejected.None? then Some(|attempts| - 1)
    else LiveIndex(attempts[..|attempts| - 1])
  }

  // refusal.ts

  /** Whether a refusal of this hash leaves the transaction open: some signature is on record as taken, or another is
      neither taken nor refused. */
  predicate MayBeMined(tx: TxRecord, refused: Hash) {
    || tx.retiredAccepted
    || exists i :: 0 <= i < |tx.attempts| &&
         (tx.attempts[i].acceptedAt.Some? || (tx.attempts[i].rejected.None? && tx.attempts[i].hash != refused))
  }

  /** An acceptance is on record, of a stored attempt or of a retired one. */
  predicate Taken(tx: TxRecord) {
    tx.retiredAccepted || exists i :: 0 <= i < |tx.attempts| && tx.attempts[i].acceptedAt.Some?
  }

  // sweeper.ts: the expressions

  function Hashes(attempts: seq<Attempt>): (h: seq<Hash>)
    ensures |h| == |attempts| && forall i :: 0 <= i < |h| ==> h[i] == attempts[i].hash
  {
    seq(|attempts|, i requires 0 <= i < |attempts| => attempts[i].hash)
  }

  function Reverse<T>(s: seq<T>): (r: seq<T>)
    ensures |r| == |s| && forall i :: 0 <= i < |r| ==> r[i] == s[|s| - 1 - i]
  {
    seq(|s|, i requires 0 <= i < |s| => s[|s| - 1 - i])
  }

  /** The order of a walk: the attempts from last to first, then the retired hashes from last to first. */
  function ReceiptHashes(tx: TxRecord): seq<Hash> { Reverse(Hashes(tx.attempts)) + Reverse(tx.retiredHashes) }

  /** The all-URL walk with its second look at the stored attempts. */
  function WalkHashes(tx: TxRecord): seq<Hash> { ReceiptHashes(tx) + Reverse(Hashes(tx.attempts)) }

  /** Where a sweep takes up a walk of this kind. */
  function WalkStart(tx: TxRecord, walk: Walk): nat {
    if tx.lookupFrom.Some? && tx.lookupFrom.value.walk == walk then tx.lookupFrom.value.index else 0
  }

  datatype Settings = Settings(confirmations: nat, nonceUsedMinAge: int)

  predicate ReadyToFail(tx: TxRecord, head: int, now: int, settings: Settings) {
    && tx.nonceUsedAtBlock.Some? && tx.nonceUsedAt.Some?
    && head - tx.nonceUsedAtBlock.value >= settings.confirmations
    && now - tx.nonceUsedAt.value >= settings.nonceUsedMinAge
  }

  predicate Raises(next: Fees, previous: Fees) { next.maxFee > previous.maxFee || next.tip > previous.tip }

  predicate AtCap(fees: Fees, cap: Fees) { fees.maxFee >= cap.maxFee || fees.tip >= cap.tip }

  /** compareFees(a, b) > 0. */
  predicate Higher(a: Fees, b: Fees) { a.maxFee > b.maxFee || (a.maxFee == b.maxFee && a.tip > b.tip) }

  /** A refusal that holds back these fees. */
  predicate Covers(a: Attempt, fees: Fees, cap: Fees) {
    a.rejected.Some? && !Raises(fees, a.fees) && (AtCap(fees, cap) || !AtCap(a.fees, cap))
  }

  function InsertByFees(attempts: seq<Attempt>, order: seq<nat>, i: nat): (r: seq<nat>)
    requires i < |attempts| && forall k :: 0 <= k < |order| ==> order[k] < |attempts|
    ensures forall k :: 0 <= k < |r| ==> r[k] < |attempts|
    ensures forall j :: j in r <==> j in order || j == i
  {
    if order != [] && Higher(attempts[i].fees, attempts[order[|order| - 1]].fees) then
      InsertByFees(attempts, order[..|order| - 1], i) + [order[|order| - 1]]
    else order + [i]
  }

  /** refusedAtOrAbove over the first n attempts: their indices, highest fees first. */
  function Blocking(attempts: seq<Attempt>, fees: Fees, cap: Fees, n: nat): (r: seq<nat>)
    requires n <= |attempts|
    ensures forall k :: 0 <= k < |r| ==> r[k] < |attempts|
    ensures forall j: nat :: j in r <==> j < n && Covers(attempts[j], fees, cap)
  {
    if n == 0 then []
    else
      var rest := Blocking(attempts, fees, cap, n - 1);
      if Covers(attempts[n - 1], fees, cap) then InsertByFees(attempts, rest, n - 1) else rest
  }

  /** The first of these attempts that still has bytes. */
  function FirstWithBytes(attempts: seq<Attempt>, order: seq<nat>): (r: Option<nat>)
    requires forall k :: 0 <= k < |order| ==> order[k] < |attempts|
    ensures r.Some? ==> r.value in order && attempts[r.value].raw.Bytes?
    ensures r.None? ==> forall j :: j in order ==> attempts[j].raw.Stripped?
  {
    if order == [] then None
    else if attempts[order[0]].raw.Bytes? then Some(order[0])
    else FirstWithBytes(attempts, order[1..])
  }

  function FirstIndex(attempts: seq<Attempt>, wanted: Attempt -> bool): (r: Option<nat>)
    ensures r.Some? ==> r.value < |attempts| && wanted(attempts[r.value])
    ensures r.None? ==> forall i :: 0 <= i < |attempts| ==> !wanted(attempts[i])
    ensures r.Some? ==> forall i :: 0 <= i < r.value ==> !wanted(attempts[i])
  {
    if attempts == [] then None
    else if wanted(attempts[0]) then Some(0)
    else
      var rest := FirstIndex(attempts[1..], wanted);
      if rest.Some? then Some(rest.value + 1) else None
  }

  /** The attempt to drop: the first refused one already stripped, or the first refused one when none is. */
  function DropIndex(attempts: seq<Attempt>): (r: Option<nat>)
    ensures r.Some? ==> r.value < |attempts| && attempts[r.value].rejected.Some?
    ensures r.None? ==> forall i :: 0 <= i < |attempts| ==> attempts[i].rejected.None?
  {
    var stripped := FirstIndex(attempts, (a: Attempt) => a.rejected.Some? && a.raw.Stripped?);
    if stripped.Some? then stripped else FirstIndex(attempts, (a: Attempt) => a.rejected.Some?)
  }

  function Signed(attempts: seq<Attempt>): nat {
    if attempts == [] then 0 else (if attempts[0].raw.Bytes? then 1 else 0) + Signed(attempts[1..])
  }

  function Unrefused(attempts: seq<Attempt>): nat {
    if attempts == [] then 0 else (if attempts[0].rejected.None? then 1 else 0) + Unrefused(attempts[1..])
  }

  /** Strips refused attempts from the front, `over` of them at most. */
  function StripOldest(attempts: seq<Attempt>, over: int): seq<Attempt> {
    if attempts == [] || over <= 0 then attempts
    else if attempts[0].rejected.None? || attempts[0].raw.Stripped? then
      [attempts[0]] + StripOldest(attempts[1..], over)
    else [attempts[0].(raw := Stripped)] + StripOldest(attempts[1..], over - 1)
  }

  function MakeRoom(attempts: seq<Attempt>): seq<Attempt> {
    StripOldest(attempts, Signed(attempts) + 1 - MAX_SIGNED_ATTEMPTS)
  }

  /** What replace will do, from the record, the node's estimate and the policy cap. */
  datatype Decision =
    | FlagFeeCap
    | FlagRetiredHashesFull
    | SendStored(index: nat)
    | Sign(fees: Fees)

  /** The replacement of the live signature, climbing from a refused one above it if the node refused as much. */
  function BumpLive(attempts: seq<Attempt>, live: nat, estimate: Fees, cap: Fees): BumpResult
    requires live < |attempts|
  {
    var bump := BumpFees(attempts[live].fees, estimate, cap, DEFAULT_PRICE_BUMP_PERCENT);
    var latest := |attempts| - 1;
    if bump.Bumped? && latest != live && !Raises(bump.fees, attempts[latest].fees) then
      BumpFees(attempts[latest].fees, estimate, cap, DEFAULT_PRICE_BUMP_PERCENT)
    else bump
  }

  function WithRoom(tx: TxRecord, fees: Fees): Decision {
    if |tx.attempts| >= MAX_STORED_ATTEMPTS && DropIndex(tx.attempts).None? then FlagFeeCap
    else if |tx.attempts| >= MAX_STORED_ATTEMPTS && |tx.retiredHashes| >= MAX_RETIRED_HASHES then FlagRetiredHashesFull
    else Sign(fees)
  }

  function Decide(tx: TxRecord, estimate: Fees, cap: Fees): Decision {
    var live := LiveIndex(tx.attempts);
    if live.Some? then
      var bump := BumpLive(tx.attempts, live.value, estimate, cap);
      if bump.CapTooLow? || Unrefused(tx.attempts) >= MAX_ATTEMPTS then FlagFeeCap
      else WithRoom(tx, bump.fees)
    else
      var fees := ClampFees(estimate, cap);
      var blocking := Blocking(tx.attempts, fees, cap, |tx.attempts|);
      var top := FirstWithBytes(tx.attempts, blocking);
      if blocking == [] then WithRoom(tx, fees)
      else if top.Some? then SendStored(top.value)
      else WithRoom(tx, ClampFees(tx.attempts[blocking[0]].fees, cap))
  }
}
