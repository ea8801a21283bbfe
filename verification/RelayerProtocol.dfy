/** The whole relayer on one table: any number of transactions, the nonce counters, one signer run a signer at a time,
    overlapping sweeps, and crashes anywhere.

    A sweep and a signer run work on copies; a write goes through only if the copy is still the stored image, so a write
    is one step from that image. A run keeps its copy, the nonce it took and what its send was answered between steps. A
    sweep keeps its copy and the hashes every URL denied it, and a write that says what a walk asked must say those. */
module RelayerProtocol {
  import opened Wrappers
  import opened RelayerRecords
  import opened RelayerEvents
  import opened RelayerRuns
  import opened RelayerNonces

  const MAX_NONCE_RESETS: nat := 2

  /** Every image a record had and every write made to it. */
  datatype Life = Life(images: seq<TxRecord>, events: seq<Event>)

  /** processTx between two of its steps: what it works on, what its last send was answered, and the hashes a node had no
      receipt for since. */
  datatype Run = Run(txId: TxId, copy: TxRecord, taken: Option<nat>, resets: nat, sent: Option<SendOutcome>,
                     unfound: seq<Hash>)

  /** One URL's answer when it is asked for a receipt. */
  datatype UrlAnswer = HasIt(receipt: Receipt) | HasNone | Silent

  predicate AllDeny(answers: seq<UrlAnswer>) { forall i :: 0 <= i < |answers| ==> answers[i].HasNone? }

  /** checkSubmitted between two of its steps. */
  datatype Walker = Walker(copy: TxRecord, denied: seq<Hash>)

  /** Every URL, so many of them, said it has no receipt for this hash, to a sweep at work on this image. */
  datatype Denial = Denial(txId: TxId, version: nat, hash: Hash, urls: nat)

  datatype World = World(
    lives: map<TxId, Life>,
    counter: map<Pair, nat>,
    runs: map<nat, Run>,
    sweeps: map<nat, Walker>,
    sends: seq<Send>,
    denials: seq<Denial>,
    fate: map<Slot, Fate>)

  function Last(life: Life): TxRecord
    requires life.images != []
  {
    life.images[|life.images| - 1]
  }

  predicate IsImage(life: Life, copy: TxRecord) {
    1 <= copy.version <= |life.images| && life.images[copy.version - 1] == copy
  }

  function Extended(life: Life, e: Event): Life
    requires life.images != [] && Enabled(e, Last(life))
  {
    Life(life.images + [Apply(e, Last(life))], life.events + [e])
  }

  predicate Exists(w: World, id: TxId) { id in w.lives && w.lives[id].images != [] }

  function Now(w: World, id: TxId): TxRecord
    requires Exists(w, id)
  {
    Last(w.lives[id])
  }

  // Where each transaction stands

  function StandingOf(tx: TxRecord): Standing {
    Standing(tx.kind, tx.pair, tx.nonce, if tx.status == Failed && tx.error.Some? then Lost(tx.error.value) else Live,
             tx.fillerTxId, tx.fillsTxId)
  }

  function Standings(lives: map<TxId, Life>): map<TxId, Standing> {
    map id | id in lives && lives[id].images != [] :: StandingOf(Last(lives[id]))
  }

  function TableOf(w: World): Table { Table(Standings(w.lives), w.counter, w.sends, w.fate) }

  // The invariant

  ghost predicate IsLife(life: Life, id: TxId) { IsRun(life.images, life.events) && Last(life).txId == id }

  ghost predicate LivesOk(w: World) { forall id :: id in w.lives ==> IsLife(w.lives[id], id) }

  /** A run's copy was an image of its record, and while it is queued the record is the copy but for requeues. */
  predicate CopyOk(w: World, s: nat, r: Run) {
    && Exists(w, r.txId) && IsImage(w.lives[r.txId], r.copy) && r.copy.pair.signer == s && r.resets <= MAX_NONCE_RESETS
    && (r.copy.status == Queued ==>
          && Now(w, r.txId).status == Queued
          && Now(w, r.txId).nonce == r.copy.nonce && Now(w, r.txId).attempts == r.copy.attempts)
    && (r.taken.Some? ==> r.copy.kind == Relay)
    && (r.copy.nonce.None? ==> r.sent.None?)
  }

  predicate SentOnce(sends: seq<Send>, r: Run)
    requires r.copy.nonce.Some?
  {
    var slot := Slot(r.copy.pair, r.copy.nonce.value);
    && CountAt(sends, slot) == (if r.sent.Some? then 1 else 0)
    && (r.sent.Some? ==>
          exists i :: 0 <= i < |sends| && sends[i].slot == slot && sends[i].txId == r.txId
                      && sends[i].outcome == r.sent.value)
  }

  /** At a nonce the run took itself, the sends ever made are the ones it remembers. */
  predicate SentOk(sends: seq<Send>, r: Run) {
    r.copy.status == Queued && r.taken.Some? && r.copy.nonce == r.taken ==> SentOnce(sends, r)
  }

  ghost predicate RunsOk(w: World) { forall s :: s in w.runs ==> CopyOk(w, s, w.runs[s]) && SentOk(w.sends, w.runs[s]) }

  /** Bytes went out only after a save recorded their hash at their nonce. */
  predicate Recorded(w: World, send: Send) {
    send.txId in w.lives
    && exists k :: 0 <= k < |w.lives[send.txId].images| && HoldsAt(w.lives[send.txId].images[k], send)
  }

  predicate HoldsAt(tx: TxRecord, send: Send) {
    tx.pair == send.slot.pair && tx.nonce == Some(send.slot.nonce) && HasHash(tx, send.hash)
  }

  ghost predicate SendsRecorded(w: World) { forall i :: 0 <= i < |w.sends| ==> Recorded(w, w.sends[i]) }

  /** A record never comes back to a nonce it gave up: it still has each nonce it was given, or gave it up for good. */
  ghost predicate NoReturn(life: Life, id: TxId, fate: map<Slot, Fate>) {
    forall k :: 0 <= k < |life.images| && life.images[k].nonce.Some? ==>
      || KeptSince(life, k)
      || (var slot := Slot(life.images[k].pair, life.images[k].nonce.value); slot in fate && fate[slot] == GivenUp(id))
  }

  ghost predicate KeptSince(life: Life, k: nat)
    requires k < |life.images|
  {
    forall m :: k <= m < |life.images| ==> life.images[m].nonce == life.images[k].nonce
  }

  ghost predicate NoncesOk(w: World) { forall id :: id in w.lives ==> NoReturn(w.lives[id], id, w.fate) }

  ghost predicate WorldOk(w: World) { LivesOk(w) && Ok(TableOf(w)) && RunsOk(w) && SendsRecorded(w) && NoncesOk(w) }

  // The steps

  datatype Step =
    | Create(tx: TxRecord)                       // createTx
    | Raise(pair: Pair, atLeast: nat)            // raiseNonce
    | RunStarts(signer: nat, id: TxId)           // getTx of a queued transaction
    | RunEnds(signer: nat)                       // a return, a throw or a crash
    | RunAssigns(signer: nat)                    // assignNonce
    | RunWrites(signer: nat, e: Event)           // saveTx of processTx
    | RunSends(signer: nat, outcome: SendOutcome)
    | RunLooksUp(signer: nat, hash: Hash, receipt: Option<Receipt>)      // getReceipt after a nonce too low
    | RunGivesUp(signer: nat, message: string)
    | RunRefuses(signer: nat, e: Event, filler: Option<TxRecord>)    // failRefused
    | SweepRefuses(id: TxId, e: Event, filler: Option<TxRecord>)     // failRefused
    | SweepReads(sweep: nat, copy: TxRecord)     // a submitted transaction of the page
    | SweepAsks(sweep: nat, hash: Hash, answers: seq<UrlAnswer>)     // findReceipt
    | SweepWrites(id: TxId, e: Event, walker: Option<nat>)               // saveTx of a sweep
    | SweepSends(copy: TxRecord, index: nat, outcome: SendOutcome)

  /** The writes of processTx, and what its send had been answered before each. */
  predicate Settles(e: Event, sent: Option<SendOutcome>) {
    match e
    case FirstSigned(_, _, _) => sent.None?
    case DependencyFailure(_, _) => sent.None?
    case SignerTaken(_) => sent.Some? && (sent.value.Accepted? || sent.value.AlreadyKnown? || sent.value.Unknown?)
    case SignerUnderpriced(message, _) => sent == Some(Underpriced(message))
    case LeftToSweeper(_) => sent.Some? && sent.value.NonceTooLow?
    case _ => false
  }

  /** The writes of a sweep other than a refusal that fails the transaction. */
  predicate SweeperEvent(e: Event) {
    || e.Requeued? || e.Reorged? || e.BecameConfirmed? || e.WalkStopped? || e.WalkEnded? || e.NonceSeenUsed?
    || e.NonceSeenFree? || e.NonceUsedFailure? || e.MinedSeen? || e.FeeCapFlagged? || e.RetiredFullFlagged?
    || e.Replaced? || e.ReplacementTaken? || e.ReplacementRefused? || e.Rebroadcast? || e.BumpNeeded? || e.RefusalKept?
  }

  /** What a write says its all-URL walk asked in this sweep. */
  function AskedOf(e: Event): Option<seq<Hash>> {
    match e
    case WalkStopped(AllUrls, _, asked) => Some(asked)
    case NonceUsedFailure(_, _, _, asked) => Some(asked)
    case _ => None
  }

  /** What a write says was asked, every URL denied to the sweep that makes the write, on the copy it writes from. */
  predicate Answered(w: World, e: Event, copy: TxRecord, walker: Option<nat>) {
    AskedOf(e).Some? ==> walker.Some? && walker.value in w.sweeps && w.sweeps[walker.value] == Walker(copy, AskedOf(e).value)
  }

  /** The run's copy is still the stored image, so its conditional write goes through. */
  predicate Current(w: World, s: nat) {
    s in w.runs && Exists(w, w.runs[s].txId) && Now(w, w.runs[s].txId) == w.runs[s].copy
  }

  /** The filler failRefused makes. */
  predicate IsFillerOf(f: TxRecord, tx: TxRecord) {
    Initial(f) && f.kind == Filler && f.fillsTxId == Some(tx.txId) && f.pair == tx.pair && f.nonce == tx.nonce
  }

  predicate CanRefuse(w: World, tx: TxRecord, e: Event, filler: Option<TxRecord>) {
    && e.RefusalFailed? && Enabled(e, tx)
    && (filler.None? ==> e.filler.None?)
    && (filler.Some? ==> e.filler == Some(filler.value.txId) && filler.value.txId !in w.lives && IsFillerOf(filler.value, tx))
  }

  predicate CanStep(w: World, step: Step) {
    match step
    case Create(tx) => tx.txId !in w.lives && Initial(tx) && tx.kind == Relay
    case Raise(_, _) => true
    case RunStarts(s, id) => Exists(w, id) && Now(w, id).status == Queued && Now(w, id).pair.signer == s
    case RunEnds(_) => true
    case RunAssigns(s) =>
      Current(w, s) && Enabled(NonceAssigned(NextNonceOf(w.counter, w.runs[s].copy.pair)), w.runs[s].copy)
    case RunWrites(s, e) => Current(w, s) && Enabled(e, w.runs[s].copy) && Settles(e, w.runs[s].sent)
    case RunSends(s, _) =>
      && s in w.runs && w.runs[s].sent.None? && w.runs[s].copy.status == Queued
      && w.runs[s].copy.nonce.Some? && w.runs[s].copy.attempts != []
    case RunLooksUp(s, _, _) => s in w.runs && w.runs[s].sent.Some? && w.runs[s].sent.value.NonceTooLow?
    case RunGivesUp(s, message) =>
      && Current(w, s) && Enabled(NonceGivenUp(message), w.runs[s].copy)
      && w.runs[s].sent == Some(NonceTooLow(message))
      && w.runs[s].copy.nonce.Some? && w.runs[s].copy.nonce == w.runs[s].taken
      && w.runs[s].resets < MAX_NONCE_RESETS && w.runs[s].unfound == Hashes(w.runs[s].copy.attempts)
    case RunRefuses(s, e, filler) =>
      && Current(w, s) && CanRefuse(w, w.runs[s].copy, e, filler) && w.runs[s].copy.status == Queued
      && w.runs[s].sent == Some(Rejected(e.reason))
    case SweepRefuses(id, e, filler) =>
      Exists(w, id) && Now(w, id).status == Submitted && CanRefuse(w, Now(w, id), e, filler)
    case SweepReads(_, copy) => Exists(w, copy.txId) && IsImage(w.lives[copy.txId], copy)
    case SweepAsks(k, _, answers) => k in w.sweeps && answers != []
    case SweepWrites(id, e, walker) =>
      && Exists(w, id) && SweeperEvent(e) && Enabled(e, Now(w, id))
      && (e.RefusalKept? ==> Now(w, id).status == Submitted) && Answered(w, e, Now(w, id), walker)
    case SweepSends(copy, index, _) =>
      && Exists(w, copy.txId) && IsImage(w.lives[copy.txId], copy) && copy.status == Submitted
      && index < |copy.attempts| && copy.attempts[index].raw.Bytes?
  }

  function SendOf(copy: TxRecord, id: TxId, index: nat, outcome: SendOutcome): Send
    requires copy.nonce.Some? && index < |copy.attempts|
  {
    Send(id, Slot(copy.pair, copy.nonce.value), copy.attempts[index].hash, outcome)
  }

  /** A write to one record. */
  function Write(w: World, id: TxId, e: Event): World
    requires Exists(w, id) && Enabled(e, Now(w, id))
  {
    w.(lives := w.lives[id := Extended(w.lives[id], e)])
  }

  /** failRefused: the failed record and its filler in one write, or a filler's failure alone. */
  function Refusal(w: World, id: TxId, e: Event, filler: Option<TxRecord>): World
    requires Exists(w, id) && CanRefuse(w, Now(w, id), e, filler)
  {
    var tx := Now(w, id);
    var failed := Write(w, id, e);
    if tx.nonce.None? then failed
    else
      var slot := Slot(tx.pair, tx.nonce.value);
      if filler.None? then failed.(fate := w.fate[slot := FillerRefused(id)])
      else failed.(lives := failed.lives[filler.value.txId := Life([filler.value], [])],
                   fate := w.fate[slot := Held(filler.value.txId)])
  }

  function Do(w: World, step: Step): World
    requires CanStep(w, step)
  {
    match step
    case Create(tx) => w.(lives := w.lives[tx.txId := Life([tx], [])])
    case Raise(pair, atLeast) =>
      if pair !in w.counter || w.counter[pair] < atLeast then w.(counter := w.counter[pair := atLeast]) else w
    case RunStarts(s, id) => w.(runs := w.runs[s := Run(id, Now(w, id), None, 0, None, [])])
    case RunEnds(s) => w.(runs := w.runs - {s})
    case RunAssigns(s) =>
      var r := w.runs[s];
      var n := NextNonceOf(w.counter, r.copy.pair);
      Write(w, r.txId, NonceAssigned(n)).(
      counter := w.counter[r.copy.pair := n + 1],
      fate := w.fate[Slot(r.copy.pair, n) := Held(r.txId)],
      runs := w.runs[s := r.(copy := Apply(NonceAssigned(n), r.copy), taken := Some(n), sent := None, unfound := [])])
    case RunWrites(s, e) =>
      var r := w.runs[s];
      Write(w, r.txId, e).(runs := w.runs[s := r.(copy := Apply(e, r.copy), unfound := [])])
    case RunSends(s, outcome) =>
      var r := w.runs[s];
      w.(sends := w.sends + [SendOf(r.copy, r.txId, |r.copy.attempts| - 1, outcome)],
         runs := w.runs[s := r.(sent := Some(outcome), unfound := [])])
    case RunLooksUp(s, hash, receipt) =>
      var r := w.runs[s];
      if receipt.Some? then w else w.(runs := w.runs[s := r.(unfound := r.unfound + [hash])])
    case RunGivesUp(s, message) =>
      var r := w.runs[s];
      var e := NonceGivenUp(message);
      Write(w, r.txId, e).(
      fate := w.fate[Slot(r.copy.pair, r.copy.nonce.value) := GivenUp(r.txId)],
      runs := w.runs[s := r.(copy := Apply(e, r.copy), resets := r.resets + 1, sent := None, unfound := [])])
    case RunRefuses(s, e, filler) =>
      var r := w.runs[s];
      Refusal(w, r.txId, e, filler).(runs := w.runs[s := r.(copy := Apply(e, r.copy), unfound := [])])
    case SweepRefuses(id, e, filler) => Refusal(w, id, e, filler)
    case SweepReads(k, copy) => w.(sweeps := w.sweeps[k := Walker(copy, [])])
    case SweepAsks(k, hash, answers) =>
      var walker := w.sweeps[k];
      if AllDeny(answers) then
        w.(sweeps := w.sweeps[k := walker.(denied := walker.denied + [hash])],
           denials := w.denials + [Denial(walker.copy.txId, walker.copy.version, hash, |answers|)])
      else w
    case SweepWrites(id, e, _) =>
      var tx := Now(w, id);
      var written := Write(w, id, e);
      if e.NonceUsedFailure? && tx.nonce.Some? then
        written.(fate := w.fate[Slot(tx.pair, tx.nonce.value) := ReportedUsed(id)])
      else written
    case SweepSends(copy, index, outcome) =>
      if copy.nonce.None? then w
      else w.(sends := w.sends + [SendOf(copy, copy.txId, index, outcome)])
  }

  /** What a step does to the nonces. */
  function MoveOf(w: World, step: Step): Move
    requires CanStep(w, step)
  {
    match step
    case Create(tx) => Join(tx.txId, tx.pair)
    case Raise(pair, atLeast) => RaiseTo(pair, atLeast)
    case RunStarts(_, _) => Quiet
    case RunEnds(_) => Quiet
    case RunAssigns(s) => Assign(w.runs[s].txId)
    case RunWrites(s, e) => if e.DependencyFailure? then FailDependent(w.runs[s].txId, e.reason) else Quiet
    case RunSends(s, outcome) => SendAt(SendOf(w.runs[s].copy, w.runs[s].txId, |w.runs[s].copy.attempts| - 1, outcome))
    case RunLooksUp(_, _, _) => Quiet
    case RunGivesUp(s, _) => GiveUp(w.runs[s].txId)
    case RunRefuses(s, e, _) => RefusalMove(w.runs[s].txId, e)
    case SweepRefuses(id, e, _) => RefusalMove(id, e)
    case SweepReads(_, _) => Quiet
    case SweepAsks(_, _, _) => Quiet
    case SweepWrites(id, e, _) => if e.NonceUsedFailure? then FindUsed(id) else Quiet
    case SweepSends(copy, index, outcome) => if copy.nonce.None? then Quiet else SendAt(SendOf(copy, copy.txId, index, outcome))
  }

  function RefusalMove(id: TxId, e: Event): Move
    requires e.RefusalFailed?
  {
    if e.filler.Some? then HandOver(id, e.reason, e.filler.value) else RefuseFiller(id, e.reason)
  }
}
