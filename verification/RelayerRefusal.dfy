/** What a node's answers lead to (services/relayer/src/chain.ts, by its interface, and refusal.ts). */
module RelayerRefusal {
  import opened Wrappers
  import opened ReplacementFees
  import opened RelayerRecords
  import opened RelayerEvents
  import opened RelayerInvariants
  import opened RelayerNonces
  import opened RelayerProtocol
  import opened RelayerSafety
  import opened RelayerBehaviours
  import opened RelayerStore
  import opened DailySpend

  /** Who sends: a signer run the signature it just saved, or a sweep one of the signatures its copy holds. */
  datatype Sender = BySigner(s: nat) | BySweep(copy: TxRecord, index: nat)

  predicate MaySend(w: World, who: Sender, raw: Raw) {
    raw.Bytes?
    && match who
       case BySigner(s) =>
         && s in w.runs && w.runs[s].sent.None? && w.runs[s].copy.status == Queued && w.runs[s].copy.nonce.Some?
         && w.runs[s].copy.attempts != [] && w.runs[s].copy.attempts[|w.runs[s].copy.attempts| - 1].raw == raw
       case BySweep(copy, index) =>
         && Seen(w, copy) && copy.status == Submitted && copy.nonce.Some?
         && index < |copy.attempts| && copy.attempts[index].raw == raw
  }

  /** What the log says of a send. */
  function SendBy(w: World, who: Sender, raw: Raw, outcome: SendOutcome): Send
    requires MaySend(w, who, raw)
  {
    match who
    case BySigner(s) => SendOf(w.runs[s].copy, w.runs[s].txId, |w.runs[s].copy.attempts| - 1, outcome)
    case BySweep(copy, index) => SendOf(copy, copy.txId, index, outcome)
  }

  function StepOfSend(who: Sender, outcome: SendOutcome): Step {
    match who
    case BySigner(s) => RunSends(s, outcome)
    case BySweep(copy, index) => SweepSends(copy, index, outcome)
  }

  lemma MaySendSteps(w: World, u: World, who: Sender, raw: Raw, outcome: SendOutcome)
    requires WorldOk(w) && Reaches(w, u) && MaySend(w, who, raw)
    requires who.BySigner? ==> SameRun(w, u, who.s)
    ensures CanStep(u, StepOfSend(who, outcome))
    ensures Do(u, StepOfSend(who, outcome)).sends == u.sends + [SendBy(w, who, raw, outcome)]
  {
    hide WorldOk, Reaches;
    if who.BySweep? { SeenStays(w, u, who.copy); }
  }

  /** Signs at a record's nonce. The bytes are any, and determine their hash. */
  method SignAttempt(fees: Fees, now: int) returns (a: Attempt)
    ensures Fresh(a) && a.fees == fees && a.signedAt == now
  {
    var content: nat := *;
    a := Attempt(content, Bytes(content), fees, now, None, None, None);
  }

  datatype Found = FoundReceipt(receipt: Receipt) | NoReceipt | Unanswered

  /** The first receipt among the answers, and Unanswered when there is none and a URL could not answer. */
  function Verdict(answers: seq<UrlAnswer>): (found: Found)
    ensures found.NoReceipt? <==> AllDeny(answers)
    ensures found.FoundReceipt? <==> exists i :: 0 <= i < |answers| && answers[i].HasIt?
    ensures found.FoundReceipt? ==> exists i :: 0 <= i < |answers| && answers[i] == HasIt(found.receipt)
  {
    if answers == [] then NoReceipt
    else
      var before := Verdict(answers[..|answers| - 1]);
      match answers[|answers| - 1]
      case HasNone => before
      case Silent => if before.FoundReceipt? then before else Unanswered
      case HasIt(receipt) => if before.FoundReceipt? then before else FoundReceipt(receipt)
  }

  /** One node after another said it has no receipt. */
  function NoReceipts(hashes: seq<Hash>): (r: seq<Heard>)
    ensures |r| == |hashes| && forall i :: 0 <= i < |r| ==> r[i] == ReceiptOf(hashes[i], None)
  {
    seq(|hashes|, i requires 0 <= i < |hashes| => ReceiptOf(hashes[i], None))
  }

  lemma NoneAskedYet()
    ensures NoReceipts([]) == []
  {
  }

  lemma NoReceiptsNext(hashes: seq<Hash>, hash: Hash)
    ensures NoReceipts(hashes + [hash]) == NoReceipts(hashes) + [ReceiptOf(hash, None)]
  {
  }

  /** A run that was told there is no receipt for this hash. */
  function Unfound(r: Run, hash: Hash): Run { r.(unfound := r.unfound + [hash]) }

  /** The chain's URLs, which answer anything. */
  class Node {
    const store: Store
    const urls: nat

    constructor (store: Store, urls: nat)
      requires urls > 0
      ensures this.store == store && this.urls == urls
    {
      this.store, this.urls := store, urls;
    }

    /** Only whole signatures go out, and each is one the record was saved with before. */
    method Send(raw: Raw, ghost who: Sender) returns (outcome: SendOutcome)
      requires store.Valid() && MaySend(store.w, who, raw)
      modifies store
      ensures store.Valid() && Reaches(old(store.w), store.w)
      ensures SentIn(old(store.w), store.w, SendBy(old(store.w), who, raw, outcome))
      ensures who.BySigner? ==>
                && who.s in store.w.runs
                && store.w.runs[who.s] == old(store.w).runs[who.s].(sent := Some(outcome), unfound := [])
      ensures store.Called(false) && store.clashes == old(store.clashes)
    {
      hide WorldOk, Mirrors, Books, AllReserved, ClaimsOk, Reaches, Seen;
      store.Others(if who.BySigner? then Signing(who.s) else Nobody);
      ghost var before := store.w;
      outcome := *;
      MaySendSteps(old(store.w), store.w, who, raw, outcome);
      SendsGrow(old(store.w), store.w);
      store.Take(StepOfSend(who, outcome));
      ReachesTransitively(old(store.w), before, store.w);
      assert store.w.sends[|before.sends|] == SendBy(old(store.w), who, raw, outcome);
    }

    /** One node's answer. It goes into what this invocation was told, and a signer run that asks after a nonce too low
        remembers which hashes had no receipt. */
    method GetReceipt(hash: Hash, ghost run: Option<nat> := None) returns (receipt: Option<Receipt>)
      requires store.Valid() && (run.Some? ==> CanStep(store.w, RunLooksUp(run.value, hash, None)))
      modifies store`heard, store`w
      ensures store.Valid() && Reaches(old(store.w), store.w)
      ensures store.heard == old(store.heard) + [ReceiptOf(hash, receipt)]
      ensures run.None? ==> store.w == old(store.w)
      ensures run.Some? ==>
                var s := run.value;
                && (store.w.lives, store.w.sends) == (old(store.w).lives, old(store.w).sends)
                && store.w.runs == if receipt.Some? then old(store.w).runs
                                   else old(store.w).runs[s := Unfound(old(store.w).runs[s], hash)]
    {
      hide WorldOk, Mirrors, Books, AllReserved, ClaimsOk, Reaches;
      ReachesItself(store.w);
      receipt := *;
      store.heard := store.heard + [ReceiptOf(hash, receipt)];
      if run.Some? { store.Take(RunLooksUp(run.value, hash, receipt)); }
    }

    /** Whether the deadline has passed. */
    method Late() returns (late: bool)
      modifies store`lates
      ensures store.lates == old(store.lates) + if late then 1 else 0
    {
      late := *;
      if late { store.lates := store.lates + 1; }
    }

    /** One answer from each URL. */
    method AskUrls(hash: Hash) returns (answers: seq<UrlAnswer>)
      ensures |answers| == urls
    {
      answers := [];
      for url := 0 to urls
        invariant |answers| == url
      {
        var answer: UrlAnswer := *;
        answers := answers + [answer];
      }
    }

    method FirstReceipt(answers: seq<UrlAnswer>) returns (found: Found)
      ensures found == Verdict(answers)
    {
      found := NoReceipt;
      for i := 0 to |answers|
        invariant found == Verdict(answers[..i])
      {
        assert answers[..i + 1][..i] == answers[..i];
        if answers[i].HasIt? && !found.FoundReceipt? {
          found := FoundReceipt(answers[i].receipt);
        } else if answers[i].Silent? && !found.FoundReceipt? {
          found := Unanswered;
        }
      }
      assert answers[..|answers|] == answers;
    }

    /** Asks each URL in turn. None is reported only after as many denials as there are URLs, and the log holds them. */
    method FindReceipt(hash: Hash, ghost k: nat) returns (found: Found, answers: seq<UrlAnswer>)
      requires store.Valid() && k in store.w.sweeps && urls > 0
      modifies store
      ensures store.Valid() && Reaches(old(store.w), store.w) && k in store.w.sweeps
      ensures found.NoReceipt? ==>
                && store.w.sweeps[k] == old(store.w).sweeps[k].(denied := old(store.w).sweeps[k].denied + [hash])
                && store.w.denials != []
                && store.w.denials[|store.w.denials| - 1]
                   == Denial(store.w.sweeps[k].copy.txId, store.w.sweeps[k].copy.version, hash, urls)
      ensures !found.NoReceipt? ==> store.w.sweeps[k] == old(store.w).sweeps[k]
      ensures |answers| == urls && found == Verdict(answers) && store.heard == old(store.heard) + [UrlsSaid(hash, answers)]
      ensures store.lates == old(store.lates) && store.mishaps == old(store.mishaps) && store.clashes == old(store.clashes)
    {
      hide WorldOk, Mirrors, Books, AllReserved, ClaimsOk, Reaches;
      store.Others(Sweeping(k));
      ghost var before := store.w;
      answers := AskUrls(hash);
      store.heard := store.heard + [UrlsSaid(hash, answers)];
      store.Take(SweepAsks(k, hash, answers));
      ReachesTransitively(old(store.w), before, store.w);
      found := FirstReceipt(answers);
    }

    method GetNonce() returns (nonce: nat)
      modifies store`heard
      ensures store.heard == old(store.heard) + [NonceIs(nonce)]
    {
      nonce := *;
      store.heard := store.heard + [NonceIs(nonce)];
    }

    method EstimateFees() returns (fees: Fees)
      modifies store`heard
      ensures store.heard == old(store.heard) + [FeesAre(fees)]
    {
      fees := *;
      store.heard := store.heard + [FeesAre(fees)];
    }

    method EstimateGas() returns (gas: nat)
      modifies store`heard
      ensures store.heard == old(store.heard) + [GasIs(gas)]
    {
      gas := *;
      store.heard := store.heard + [GasIs(gas)];
    }

    /** Whether a call reverts, and with what message. */
    method Reverts() returns (message: Option<string>)
      modifies store`heard
      ensures store.heard == old(store.heard) + [CallReverts(message)]
    {
      message := *;
      store.heard := store.heard + [CallReverts(message)];
    }

    method IsKnown(hash: Hash) returns (known: bool)
      modifies store`heard
      ensures store.heard == old(store.heard) + [KnownIs(hash, known)]
    {
      known := *;
      store.heard := store.heard + [KnownIs(hash, known)];
    }
  }

  // refuseAttempt

  lemma KeptImage(tx: TxRecord, hash: Hash, reason: string, now: int)
    requires Enabled(RefusalKept(hash, reason, now), tx)
    ensures WithStatus(tx, Submitted, now).(attempts := MarkRejected(tx.attempts, hash, reason))
         == Image(RefusalKept(hash, reason, now), tx)
  {
    hide WithStatus;
    WithStatusKeeps(tx, Submitted, now);
  }

  lemma FailedImage(tx: TxRecord, hash: Hash, reason: string, now: int, filler: Option<TxId>)
    requires Enabled(RefusalFailed(hash, reason, now, filler), tx)
    ensures WithStatus(tx, Failed, now).(
            attempts := MarkRejected(tx.attempts, hash, reason), error := Some(Refused(reason)),
            fillerTxId := if filler.Some? then filler else tx.fillerTxId)
         == Image(RefusalFailed(hash, reason, now, filler), tx)
  {
    hide WithStatus;
    WithStatusKeeps(tx, Failed, now);
  }

  /** With one unanswered signature and no acceptance on record, MayBeMined is false: the refusal fails the transaction. */
  lemma FirstRefusalFails(tx: TxRecord)
    requires Good(tx) && tx.status == Queued && tx.attempts != []
    ensures !MayBeMined(tx, LatestHash(tx)) && HasHash(tx, LatestHash(tx)) && tx.lookupFrom.None?
  {
    assert Hashes(tx.attempts)[|tx.attempts| - 1] == LatestHash(tx);
  }

  datatype RefusalOutcome = RefusalFails | RefusalKeeps | RefusalThrows

  /** The step that fails the transaction: a signer run's, or a sweep's. */
  function RefusalStep(run: Option<nat>, id: TxId, e: Event, filler: Option<TxRecord>): Step {
    match run
    case Some(s) => RunRefuses(s, e, filler)
    case None => SweepRefuses(id, e, filler)
  }

  /** The caller's copy may be refused: a signer run's after a first send, or a sweep's submitted one. */
  predicate MayHandle(w: World, run: Option<nat>, tx: TxRecord, reason: string) {
    && Seen(w, tx)
    && match run
       case None => tx.status == Submitted
       case Some(s) =>
         && s in w.runs && w.runs[s].copy == tx && w.runs[s].txId == tx.txId && tx.status == Queued
         && w.runs[s].sent == Some(Rejected(reason))
  }

  /** The record a failing write creates: the same pair and nonce, nothing transferred. */
  function FillerFor(tx: TxRecord, id: TxId, gas: nat, now: int): (filler: TxRecord)
    ensures filler.txId == id && filler.nonce == tx.nonce && filler.pair == tx.pair && filler.value == 0
    ensures gas <= filler.gasLimit && 5 * filler.gasLimit <= 6 * gas
  {
    TxRecord(id, Filler, tx.pair, 0, gas * 120 / 100, Queued, tx.nonce, [], [], [], false, false, None, false, false,
             None, None, None, None, None, Some(tx.txId), None, now, 1, 0, [HistoryEntry(Queued, now)], now, 1)
  }

  /** The failure was saved, and for a relay transaction its filler, in the same write: at its nonce, for its signer. */
  ghost predicate FailedByRefusal(w: World, tx: TxRecord, hash: Hash, reason: string, newTxId: TxId, now: int) {
    && Saved(w, tx, RefusalFailed(hash, reason, now, if tx.kind == Filler then None else Some(newTxId)))
    && (tx.kind == Relay ==> exists gas :: Seen(w, FillerFor(tx, newTxId, gas, now)))
  }

  /** The filler's gas limit is from the node's estimate for it. */
  ghost predicate FilledAtItsGas(was: seq<Heard>, told: seq<Heard>, w: World, tx: TxRecord, newTxId: TxId, now: int) {
    exists gas :: told == was + [GasIs(gas)] && Seen(w, FillerFor(tx, newTxId, gas, now))
  }

  class Refusal {
    const store: Store
    const node: Node

    constructor (store: Store, node: Node)
      requires node.store == store
      ensures this.store == store && this.node == node
    {
      this.store, this.node := store, node;
    }

    /** Decides by MayBeMined: failed, for a relay with its filler, when it is false; when it is true the refusal is noted
        on the attempt and the status stays. */
    method RefuseAttempt(tx: TxRecord, refusedHash: Hash, reason: string, newTxId: TxId, now: int, ghost run: Option<nat>)
      returns (outcome: RefusalOutcome)
      requires store.Valid() && node.store == store && MayHandle(store.w, run, tx, reason)
      requires HasHash(tx, refusedHash) && tx.lookupFrom.None?
      requires run.Some? ==> !MayBeMined(tx, refusedHash)
      modifies store
      ensures store.Valid() && Reaches(old(store.w), store.w)
      ensures outcome.RefusalFails? ==>
                !MayBeMined(tx, refusedHash) && FailedByRefusal(store.w, tx, refusedHash, reason, newTxId, now)
      ensures outcome.RefusalKeeps? ==>
                MayBeMined(tx, refusedHash) && Saved(store.w, tx, RefusalKept(refusedHash, reason, now))
      ensures outcome.RefusalFails? && tx.kind == Relay ==>
                FilledAtItsGas(old(store.heard), store.heard, store.w, tx, newTxId, now)
      ensures store.Onward(outcome.RefusalThrows?)
    {
      hide WorldOk, Mirrors, Books, AllReserved, ClaimsOk, Reaches, IsImage, MayBeMined;
      if !MayBeMined(tx, refusedHash) {
        var failed := FailRefused(tx, refusedHash, reason, newTxId, now, run);
        return if failed then RefusalFails else RefusalThrows;
      }
      ghost var e := RefusalKept(refusedHash, reason, now);
      var attempts := MarkRejected(tx.attempts, refusedHash, reason);
      KeptImage(tx, refusedHash, reason, now);
      var saved := store.SaveTx(WithStatus(tx, Submitted, now).(attempts := attempts), tx, SweepWrites(tx.txId, e, None));
      return if saved.Some? then RefusalKeeps else RefusalThrows;
    }

    /** A refused transaction's nonce goes to a filler made in the same write; a refused filler gets no filler. */
    method FailRefused(tx: TxRecord, refusedHash: Hash, reason: string, newTxId: TxId, now: int, ghost run: Option<nat>)
      returns (done: bool)
      requires store.Valid() && node.store == store && MayHandle(store.w, run, tx, reason)
      requires HasHash(tx, refusedHash) && tx.lookupFrom.None?
      requires !MayBeMined(tx, refusedHash)
      modifies store
      ensures store.Valid() && Reaches(old(store.w), store.w)
      ensures done ==> FailedByRefusal(store.w, tx, refusedHash, reason, newTxId, now)
      ensures done && tx.kind == Relay ==> FilledAtItsGas(old(store.heard), store.heard, store.w, tx, newTxId, now)
      ensures store.Onward(!done)
    {
      hide WorldOk, Mirrors, Books, AllReserved, ClaimsOk, Reaches, IsImage, MayBeMined, Enabled, Image, Initial,
           WithStatus, MayHandle, Licensed, RefusalStep, FillerFor, Seen, HasHash;
      var attempts := MarkRejected(tx.attempts, refusedHash, reason);
      var failed := WithStatus(tx, Failed, now).(attempts := attempts, error := Some(Refused(reason)));
      if tx.kind == Filler {
        ghost var e := RefusalFailed(refusedHash, reason, now, None);
        RefusalPrepared(store.w, run, tx, reason, refusedHash, now, None);
        var saved := store.SaveTx(failed.(fillerTxId := tx.fillerTxId), tx, RefusalStep(run, tx.txId, e, None));
        return saved.Some?;
      }
      var gas := node.EstimateGas();
      var filler := FillerFor(tx, newTxId, gas, now);
      ghost var e := RefusalFailed(refusedHash, reason, now, Some(newTxId));
      RefusalPrepared(store.w, run, tx, reason, refusedHash, now, Some(filler));
      var saved := store.FailWithFiller(failed.(fillerTxId := Some(newTxId)), filler, tx,
                                        RefusalStep(run, tx.txId, e, Some(filler)));
      return saved.Some?;
    }
  }

  /** What a refusal that fails the transaction needs of the record, its step and its write. */
  lemma RefusalPrepared(w: World, run: Option<nat>, tx: TxRecord, reason: string, hash: Hash, now: int,
                        filler: Option<TxRecord>)
    requires WorldOk(w) && MayHandle(w, run, tx, reason) && HasHash(tx, hash) && tx.lookupFrom.None?
    requires !MayBeMined(tx, hash) && (filler.None? <==> tx.kind == Filler)
    requires filler.Some? ==> exists gas :: filler.value == FillerFor(tx, filler.value.txId, gas, now)
    ensures var id := if filler.Some? then Some(filler.value.txId) else None;
            var e := RefusalFailed(hash, reason, now, id);
            && Enabled(e, tx) && IsWrite(RefusalStep(run, tx.txId, e, filler))
            && EventOf(RefusalStep(run, tx.txId, e, filler)) == e && FillerOf(RefusalStep(run, tx.txId, e, filler)) == filler
            && Licensed(w, RefusalStep(run, tx.txId, e, filler), tx)
            && WithStatus(tx, Failed, now).(
               attempts := MarkRejected(tx.attempts, hash, reason), error := Some(Refused(reason)),
               fillerTxId := if filler.Some? then id else tx.fillerTxId) == Image(e, tx)
  {
    hide WorldOk, WithStatus, MarkRejected, Image, MayBeMined, HasHash;
    var e := RefusalFailed(hash, reason, now, if filler.Some? then Some(filler.value.txId) else None);
    FailedImage(tx, hash, reason, now, e.filler);
    RefusedNonce(w, run, tx, reason, hash);
    RefusalIsLicensed(w, run, tx, reason, e, filler);
  }

  lemma RefusedNonce(w: World, run: Option<nat>, tx: TxRecord, reason: string, hash: Hash)
    requires WorldOk(w) && MayHandle(w, run, tx, reason) && HasHash(tx, hash)
    ensures tx.nonce.Some?
  {
    hide RunsOk, Ok, NoncesOk, SendsRecorded, Good, IsLife;
    SameVersionSameImage(w.lives[tx.txId], tx.txId, tx);
    HasNonce(tx);
  }

  lemma RefusalIsLicensed(w: World, run: Option<nat>, tx: TxRecord, reason: string, e: Event, filler: Option<TxRecord>)
    requires MayHandle(w, run, tx, reason) && e.RefusalFailed? && e.reason == reason && Enabled(e, tx)
    requires filler.None? ==> e.filler.None?
    requires filler.Some? ==> e.filler == Some(filler.value.txId) && IsFillerOf(filler.value, tx)
    ensures Licensed(w, RefusalStep(run, tx.txId, e, filler), tx)
  {
    hide Enabled, Initial;
  }
}
