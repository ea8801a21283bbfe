/** processTx: the signer's pass over one queued transaction (services/relayer/src/signer.ts:57-175).

    It may stop after any statement, by a throw, a crash or the end of its time; the next delivery starts over. A signer's
    runs follow one another, as the queue's message group has it. */
module RelayerSigner {
  import opened Wrappers
  import opened ReplacementFees
  import opened RelayerRecords
  import opened RelayerEvents
  import opened RelayerInvariants
  import opened RelayerNonces
  import opened RelayerProtocol
  import opened RelayerSafety
  import opened RelayerBehaviours
  import opened DailySpend
  import opened RelayerStore
  import opened RelayerRefusal

  datatype Outcome = TxMissing | TxSkipped | TxPaused | TxWaiting | TxSubmitted | TxFailed | TxThrew

  /** Where the signer's run stands, as the protocol sees it. */
  predicate RunAt(w: World, s: nat, tx: TxRecord, taken: Option<nat>, resets: nat, sent: Option<SendOutcome>,
                  unfound: seq<Hash> := [])
  {
    && s in w.runs && w.runs[s] == Run(tx.txId, tx, taken, resets, sent, unfound)
    && Seen(w, tx) && tx.status == Queued && tx.pair.signer == s
  }

  /** Some image of the transaction has this status. */
  ghost predicate Reached(w: World, id: TxId, status: Status) {
    exists copy :: Seen(w, copy) && copy.txId == id && copy.status == status
  }

  /** The records the signer writes are the images of its events. */
  lemma SignedImage(tx: TxRecord, estimate: Fees, cap: Fees, a: Attempt)
    requires Enabled(FirstSigned(estimate, cap, a), tx)
    ensures tx.(attempts := [a]) == Image(FirstSigned(estimate, cap, a), tx)
  {
  }

  lemma TakenImage(tx: TxRecord, now: int)
    requires Enabled(SignerTaken(now), tx)
    ensures WithStatus(tx, Submitted, now).(attempts := MarkAccepted(tx.attempts, LatestHash(tx), now))
         == Image(SignerTaken(now), tx)
  {
    hide WithStatus;
    WithStatusKeeps(tx, Submitted, now);
  }

  lemma UnderpricedImage(tx: TxRecord, message: string, now: int)
    requires Enabled(SignerUnderpriced(message, now), tx)
    ensures WithStatus(tx, Submitted, now).(
            attempts := MarkRejected(tx.attempts, LatestHash(tx), message), needsBump := true)
         == Image(SignerUnderpriced(message, now), tx)
  {
    hide WithStatus;
    WithStatusKeeps(tx, Submitted, now);
  }

  lemma LeftImage(tx: TxRecord, now: int)
    requires Enabled(LeftToSweeper(now), tx)
    ensures WithStatus(tx, Submitted, now) == Image(LeftToSweeper(now), tx)
  {
    hide WithStatus;
    WithStatusKeeps(tx, Submitted, now);
  }

  lemma GivenUpImage(tx: TxRecord, message: string)
    requires Enabled(NonceGivenUp(message), tx) && tx.nonce.Some?
    ensures tx.(nonce := None, attempts := [], abandoned := AbandonedWith(tx, message)) == Image(NonceGivenUp(message), tx)
  {
  }

  lemma DependencyImage(tx: TxRecord, reason: string, now: int)
    requires Enabled(DependencyFailure(reason, now), tx)
    ensures WithStatus(tx, Failed, now).(error := Some(DependencyFailed(reason))) == Image(DependencyFailure(reason, now), tx)
  {
    hide WithStatus;
    WithStatusKeeps(tx, Failed, now);
  }

  lemma SavedHasStatus(w: World, e: Event, tx: TxRecord)
    requires Saved(w, tx, e)
    ensures Reached(w, tx.txId, NextStatus(e, tx))
  {
    hide Image, Enabled, IsImage, NextStatus;
    Columns(e, tx);
  }

  lemma SettledIsReached(w: World, tx: TxRecord, sent: SendOutcome, newTxId: TxId, now: int, r: Outcome)
    requires r.TxSubmitted? ==>
               && !sent.Rejected? && !sent.InsufficientFunds?
               && Saved(w, tx, if sent.Underpriced? then SignerUnderpriced(sent.message, now) else SignerTaken(now))
    requires r.TxFailed? ==>
               tx.attempts != [] && sent.Rejected? && FailedByRefusal(w, tx, LatestHash(tx), sent.message, newTxId, now)
    ensures r.TxSubmitted? ==> Reached(w, tx.txId, Submitted)
    ensures r.TxFailed? ==> Reached(w, tx.txId, Failed)
  {
    hide Enabled, Image, Reached, IsImage, Seen;
    if r.TxSubmitted? {
      SavedHasStatus(w, if sent.Underpriced? then SignerUnderpriced(sent.message, now) else SignerTaken(now), tx);
    }
    if r.TxFailed? {
      SavedHasStatus(w, RefusalFailed(LatestHash(tx), sent.message, now, if tx.kind == Filler then None else Some(newTxId)), tx);
    }
  }

  const UNSUCCESSFUL_DEPENDENCY: string := "the transaction this one depends on did not succeed"

  /** A transaction with a nonce was let through before. */
  predicate Dependent(tx: TxRecord) { tx.dependsOn.Some? && tx.nonce.None? }

  /** A dependency that may still change is waited for. Behind a successful one nothing stands in the way but the call's own
      revert; that, and a dependency without success, fail the transaction, unless the save fails. */
  ghost predicate DependencySettled(w: World, tx: TxRecord, state: DependencyState, reverts: Option<string>,
                                    r: Option<Outcome>, now: int)
  {
    match state
    case DependencyWaiting => r == Some(TxWaiting)
    case DependencyReady => if reverts.None? then r == None else FailedDependent(w, tx, reverts.value, r, now)
    case DependencyUnsuccessful => FailedDependent(w, tx, UNSUCCESSFUL_DEPENDENCY, r, now)
  }

  ghost predicate FailedDependent(w: World, tx: TxRecord, reason: string, r: Option<Outcome>, now: int) {
    r == Some(TxThrew) || (r == Some(TxFailed) && Saved(w, tx, DependencyFailure(reason, now)))
  }

  /** A node answered nonce too low at a nonce this run took, for the third time. */
  predicate Exhausted(w: World, s: nat) {
    && s in w.runs && w.runs[s].resets == MAX_NONCE_RESETS && w.runs[s].copy.nonce == w.runs[s].taken
    && w.runs[s].sent.Some? && w.runs[s].sent.value.NonceTooLow?
  }

  /** The node was short of funds for a send of this transaction. */
  ghost predicate ShortOfFunds(was: World, w: World, id: TxId) {
    exists send :: SentIn(was, w, send) && send.txId == id && send.outcome.InsufficientFunds?
  }

  /** A confirmed or failed transaction is written no more, so a dependency once found ready or unsuccessful is that for
      good. */
  lemma SettledStays(w: World, copy: TxRecord)
    requires WorldOk(w) && Seen(w, copy) && (copy.status == Confirmed || copy.status == Failed)
    ensures Exists(w, copy.txId) && Now(w, copy.txId) == copy
  {
    hide RunsOk, Ok, NoncesOk, SendsRecorded, Image;
    var life := w.lives[copy.txId];
    assert IsLife(life, copy.txId);
    if copy.version < |life.images| {
      assert Enabled(life.events[copy.version - 1], life.images[copy.version - 1]);
      EnabledFacts(life.events[copy.version - 1], copy);
    }
  }

  lemma SendIsFor(was: World, w: World, send: Send)
    requires SentIn(was, w, send)
    ensures SentFor(was, w, send.txId) && (send.outcome.InsufficientFunds? ==> ShortOfFunds(was, w, send.txId))
  {
    hide SentIn;
  }

  lemma StartDoes(w: World, tx: TxRecord)
    requires Exists(w, tx.txId) && Now(w, tx.txId) == tx && tx.status == Queued
    ensures var step := RunStarts(tx.pair.signer, tx.txId);
            && CanStep(w, step) && Do(w, step).lives == w.lives
            && Do(w, step).runs == w.runs[tx.pair.signer := Run(tx.txId, tx, None, 0, None, [])]
  {
  }

  class Signer {
    const store: Store
    const node: Node
    const refusal: Refusal
    // a pair in here skips the pending-nonce read of TakeNonce
    var reconciled: set<Pair>

    ghost predicate Ready()
      reads this, store
    {
      store.Valid() && node.store == store && refusal.store == store && refusal.node == node
    }

    constructor (store: Store, node: Node, refusal: Refusal)
      requires store.Valid() && node.store == store && refusal.store == store && refusal.node == node
      ensures Ready() && this.store == store && this.node == node && this.refusal == refusal && reconciled == {}
    {
      this.store, this.node, this.refusal, reconciled := store, node, refusal, {};
    }

    /** A nonce for a record that has none: the counter's next, reconciled with the chain first if it was not yet. */
    method TakeNonce(tx: TxRecord, ghost s: nat, ghost taken: Option<nat>, ghost resets: nat)
      returns (next: Option<TxRecord>, pending: nat, ghost at: World)
      requires Ready() && RunAt(store.w, s, tx, taken, resets, None) && tx.nonce.None?
      modifies store, this`reconciled
      ensures Ready() && Reaches(old(store.w), store.w) && reconciled == old(reconciled) + {tx.pair}
      ensures next.Some? ==>
                && next.value == tx.(nonce := next.value.nonce, version := tx.version + 1) && next.value.nonce.Some?
                && RunAt(store.w, s, next.value, next.value.nonce, resets, None)
      // the counter's next at that moment; not below the node's pending nonce if the pair was not reconciled yet
      ensures next.Some? ==>
                && Reaches(old(store.w), at) && CanStep(at, RunAssigns(s)) && store.w == Do(at, RunAssigns(s))
                && next.value.nonce.value == NextNonceOf(at.counter, tx.pair)
                && (tx.pair !in old(reconciled) ==> next.value.nonce.value >= pending)
      ensures store.heard == old(store.heard) + if tx.pair in old(reconciled) then [] else [NonceIs(pending)]
      ensures store.lates == old(store.lates) && store.Onward(next.None?)
    {
      hide WorldOk, Mirrors, Books, AllReserved, ClaimsOk, Reaches, IsImage, CanStep, Do;
      ReachesItself(store.w);
      pending := 0;
      ghost var raised: World;
      if tx.pair !in reconciled {
        pending := node.GetNonce();
        raised := store.RaiseNonce(tx.pair, pending, s);
        SeenStays(old(store.w), store.w, tx);
        reconciled := reconciled + {tx.pair};
      }
      ghost var before := store.w;
      var got: Assigned;
      got, at := store.AssignNonce(tx, s);
      ReachesTransitively(old(store.w), before, store.w);
      ReachesTransitively(old(store.w), before, at);
      CountersGrow(before, at, tx.pair);
      next := if got.Assigned? then Some(got.tx) else None;
    }

    /** Signs and saves; the image returned is the one SendLatest sends from. */
    method SignFirst(tx: TxRecord, cap: Fees, now: int, ghost s: nat, ghost taken: Option<nat>, ghost resets: nat)
      returns (next: Option<TxRecord>)
      requires Ready() && RunAt(store.w, s, tx, taken, resets, None) && tx.nonce.Some? && tx.attempts == []
      modifies store
      ensures Ready() && Reaches(old(store.w), store.w)
      ensures next.Some? ==>
                && RunAt(store.w, s, next.value, taken, resets, None)
                && next.value.nonce == tx.nonce && next.value.attempts != [] && next.value.txId == tx.txId
                && exists estimate, attempt ::
                     && Saved(store.w, tx, FirstSigned(estimate, cap, attempt))
                     && store.heard == old(store.heard) + [FeesAre(estimate)]
      ensures store.lates == old(store.lates) && store.Onward(next.None?)
    {
      hide WorldOk, Mirrors, Books, AllReserved, ClaimsOk, Reaches, IsImage, ClampFees;
      var estimate := node.EstimateFees();
      var fees := ClampFees(estimate, cap);
      var attempt := SignAttempt(fees, now);
      ghost var e := FirstSigned(estimate, cap, attempt);
      SignedImage(tx, estimate, cap, attempt);
      next := store.SaveTx(tx.(attempts := [attempt]), tx, RunWrites(s, e));
    }

    /** What a send that ended this pass leads to. */
    method SettleSend(tx: TxRecord, outcome: SendOutcome, newTxId: TxId, now: int, ghost s: nat,
                      ghost taken: Option<nat>, ghost resets: nat)
      returns (r: Outcome)
      requires Ready() && RunAt(store.w, s, tx, taken, resets, Some(outcome)) && tx.attempts != [] && !outcome.NonceTooLow?
      modifies store
      ensures Ready() && Reaches(old(store.w), store.w)
      ensures r.TxSubmitted? ==>
                && !outcome.Rejected? && !outcome.InsufficientFunds?
                && Saved(store.w, tx, if outcome.Underpriced? then SignerUnderpriced(outcome.message, now) else SignerTaken(now))
      ensures r.TxFailed? ==>
                outcome.Rejected? && FailedByRefusal(store.w, tx, LatestHash(tx), outcome.message, newTxId, now)
      ensures r.TxPaused? <==> outcome.InsufficientFunds?
      ensures r.TxSubmitted? || r.TxFailed? || r.TxPaused? || r.TxThrew?
      ensures store.Onward(r.TxThrew?)
    {
      hide WorldOk, Mirrors, Books, AllReserved, ClaimsOk, Reaches, IsImage, Image, Good, MayBeMined;
      ReachesItself(store.w);
      if outcome.InsufficientFunds? {
        return TxPaused;
      }
      if outcome.Rejected? {
        CopyIsGood(store.w, tx);
        FirstRefusalFails(tx);
        var refused := refusal.RefuseAttempt(tx, LatestHash(tx), outcome.message, newTxId, now, Some(s));
        return if refused.RefusalFails? then TxFailed else TxThrew;
      }
      if outcome.Underpriced? {
        ghost var e := SignerUnderpriced(outcome.message, now);
        UnderpricedImage(tx, outcome.message, now);
        var attempts := MarkRejected(tx.attempts, LatestHash(tx), outcome.message);
        var saved := store.SaveTx(WithStatus(tx, Submitted, now).(attempts := attempts, needsBump := true), tx,
                                  RunWrites(s, e));
        return if saved.Some? then TxSubmitted else TxThrew;
      }
      // taken, known already, or perhaps in a mempool for all the answer says
      ghost var e := SignerTaken(now);
      TakenImage(tx, now);
      var attempts := MarkAccepted(tx.attempts, LatestHash(tx), now);
      var saved := store.SaveTx(WithStatus(tx, Submitted, now).(attempts := attempts), tx, RunWrites(s, e));
      return if saved.Some? then TxSubmitted else TxThrew;
    }

    /** The transaction as it is, with its signatures, goes to the sweeper. */
    method LeaveToSweeper(tx: TxRecord, now: int, ghost s: nat, ghost taken: Option<nat>, ghost resets: nat,
                          ghost outcome: SendOutcome, ghost unfound: seq<Hash>)
      returns (r: Outcome)
      requires Ready() && RunAt(store.w, s, tx, taken, resets, Some(outcome), unfound)
      requires tx.attempts != [] && outcome.NonceTooLow?
      modifies store
      ensures Ready() && Reaches(old(store.w), store.w)
      ensures r.TxSubmitted? ==> Saved(store.w, tx, LeftToSweeper(now))
      ensures r.TxSubmitted? || r.TxThrew?
      ensures store.heard == old(store.heard) && store.lates == old(store.lates) && store.Onward(r.TxThrew?)
    {
      hide WorldOk, Mirrors, Books, AllReserved, ClaimsOk, Reaches, IsImage, Image;
      ghost var e := LeftToSweeper(now);
      LeftImage(tx, now);
      var saved := store.SaveTx(WithStatus(tx, Submitted, now), tx, RunWrites(s, e));
      return if saved.Some? then TxSubmitted else TxThrew;
    }

    /** Gives up a nonce another sender used: only one this run took itself. */
    method GiveUp(tx: TxRecord, takenNonce: Option<nat>, resets: nat, message: string, ghost s: nat)
      returns (next: Option<TxRecord>)
      requires Ready() && RunAt(store.w, s, tx, takenNonce, resets, Some(NonceTooLow(message)), Hashes(tx.attempts))
      requires tx.attempts != [] && tx.nonce.Some? && tx.nonce == takenNonce && resets < MAX_NONCE_RESETS
      modifies store, this`reconciled
      ensures Ready() && Reaches(old(store.w), store.w)
      ensures next.Some? ==>
                && RunAt(store.w, s, next.value, takenNonce, resets + 1, None) && next.value.nonce.None?
                && next.value.attempts == [] && next.value.txId == tx.txId && tx.pair !in reconciled
                && next.value.abandoned == AbandonedWith(tx, message)
      ensures store.heard == old(store.heard) && store.lates == old(store.lates) && store.Onward(next.None?)
    {
      hide WorldOk, Mirrors, Books, AllReserved, ClaimsOk, Reaches, IsImage;
      reconciled := reconciled - {tx.pair};
      GivenUpImage(tx, message);
      next := store.SaveTx(tx.(nonce := None, attempts := [], abandoned := AbandonedWith(tx, message)), tx,
                           RunGivesUp(s, message));
    }

    /** A send answered nonce too low: a node is asked for a receipt of each signature. With one the transaction goes to the
        sweeper, and so it does if an earlier run may have sent the signatures; otherwise the nonce is given up. */
    method HandleNonceTooLow(tx: TxRecord, takenNonce: Option<nat>, resets: nat, message: string, now: int, ghost s: nat)
      returns (r: Option<Outcome>, next: TxRecord, ghost asked: nat)
      requires Ready() && RunAt(store.w, s, tx, takenNonce, resets, Some(NonceTooLow(message)))
      requires tx.attempts != [] && tx.nonce.Some? && resets <= MAX_NONCE_RESETS
      modifies store, this`reconciled
      ensures Ready() && Reaches(old(store.w), store.w)
      ensures r.Some? ==> r.value.TxThrew? || (r.value.TxSubmitted? && Saved(store.w, tx, LeftToSweeper(now)))
      // every signature was asked for, but those behind one that has a receipt
      ensures asked <= |tx.attempts| && (asked < |tx.attempts| ==> r.Some?)
      ensures if asked == |tx.attempts| then store.heard == old(store.heard) + NoReceipts(Hashes(tx.attempts))
              else exists receipt ::
                store.heard == old(store.heard) + NoReceipts(Hashes(tx.attempts)[..asked])
                               + [ReceiptOf(tx.attempts[asked].hash, Some(receipt))]
      // a nonce is given up only by the run that took it, fewer than three times
      ensures r.None? ==>
                && tx.nonce == takenNonce && resets < MAX_NONCE_RESETS
                && RunAt(store.w, s, next, takenNonce, resets + 1, None)
                && next.nonce.None? && next.attempts == [] && next.txId == tx.txId
      ensures asked == |tx.attempts| && r.Some? && r.value.TxSubmitted? ==> tx.nonce != takenNonce
      ensures store.lates == old(store.lates)
      ensures store.Onward(false)
      ensures r == Some(TxThrew) ==> store.mishaps > old(store.mishaps) || (resets == MAX_NONCE_RESETS && Exhausted(store.w, s))
    {
      hide WorldOk, Mirrors, Books, AllReserved, ClaimsOk, Reaches, IsImage, Reached, NoReceipts;
      next := tx;
      var mined;
      mined, asked := AskForReceipts(tx, takenNonce, resets, message, s);
      ghost var before, unfound := store.w, Hashes(tx.attempts)[..asked];
      if mined || tx.nonce != takenNonce {
        var left := LeaveToSweeper(tx, now, s, takenNonce, resets, NonceTooLow(message), unfound);
        r := Some(left);
      } else {
        assert unfound == Hashes(tx.attempts);
        r := Some(TxThrew);
        if resets < MAX_NONCE_RESETS {
          var given := GiveUp(tx, takenNonce, resets, message, s);
          if given.Some? { r, next := None, given.value; }
        } else {
          ReachesItself(store.w);
        }
      }
      ReachesTransitively(old(store.w), before, store.w);
    }

    /** A node is asked for a receipt of each signature, up to the first that has one. */
    method AskForReceipts(tx: TxRecord, ghost takenNonce: Option<nat>, ghost resets: nat, ghost message: string, ghost s: nat)
      returns (mined: bool, ghost asked: nat)
      requires Ready() && RunAt(store.w, s, tx, takenNonce, resets, Some(NonceTooLow(message)))
      modifies store
      ensures Ready() && Reaches(old(store.w), store.w) && asked <= |tx.attempts| && (mined <==> asked < |tx.attempts|)
      ensures RunAt(store.w, s, tx, takenNonce, resets, Some(NonceTooLow(message)), Hashes(tx.attempts)[..asked])
      ensures mined ==> exists receipt ::
                store.heard == old(store.heard) + NoReceipts(Hashes(tx.attempts)[..asked])
                               + [ReceiptOf(tx.attempts[asked].hash, Some(receipt))]
      ensures !mined ==> store.heard == old(store.heard) + NoReceipts(Hashes(tx.attempts))
      ensures store.lates == old(store.lates) && store.mishaps == old(store.mishaps) && store.clashes == old(store.clashes)
    {
      hide WorldOk, Mirrors, Books, AllReserved, ClaimsOk, Reaches, IsImage, NoReceipts;
      asked := 0;
      ReachesItself(store.w);
      ghost var hashes := Hashes(tx.attempts);
      NoneAskedYet();
      for i := 0 to |tx.attempts|
        invariant Ready() && Reaches(old(store.w), store.w) && asked == i
        invariant RunAt(store.w, s, tx, takenNonce, resets, Some(NonceTooLow(message)), hashes[..i])
        invariant store.heard == old(store.heard) + NoReceipts(hashes[..i])
        invariant store.lates == old(store.lates) && store.mishaps == old(store.mishaps) && store.clashes == old(store.clashes)
      {
        ghost var before := store.w;
        var receipt := node.GetReceipt(tx.attempts[i].hash, Some(s));
        SeenStays(before, store.w, tx);
        ReachesTransitively(old(store.w), before, store.w);
        if receipt.Some? {
          mined := true;
          return;
        }
        assert hashes[..i + 1] == hashes[..i] + [hashes[i]];
        NoReceiptsNext(hashes[..i], hashes[i]);
        asked := i + 1;
      }
      assert hashes[..|tx.attempts|] == hashes;
      mined := false;
    }

    /** A dependent transaction that has no nonce waits for its dependency, goes on once that is confirmed with success,
        and fails with it, or when its own call reverts then. */
    method CheckDependency(tx: TxRecord, now: int, ghost s: nat)
      returns (r: Option<Outcome>, dependency: Option<TxRecord>, reverts: Option<string>)
      requires Ready() && RunAt(store.w, s, tx, None, 0, None)
      modifies store
      ensures Ready() && Reaches(old(store.w), store.w)
      ensures r.None? ==> RunAt(store.w, s, tx, None, 0, None)
      ensures !Dependent(tx) ==> r.None? && store.w == old(store.w)
      ensures Dependent(tx) && dependency.Some? ==>
                Seen(store.w, dependency.value) && Some(dependency.value.txId) == tx.dependsOn
      ensures Dependent(tx) && tx.dependsOn.value in old(store.txs) ==> dependency.Some?
      ensures Dependent(tx) ==> DependencySettled(store.w, tx, DependencyStateOf(dependency), reverts, r, now)
      ensures store.heard == old(store.heard)
                             + if Dependent(tx) && DependencyStateOf(dependency) == DependencyReady
                               then [CallReverts(reverts)] else []
      ensures store.lates == old(store.lates) && store.Onward(r == Some(TxThrew))
    {
      hide WorldOk, Mirrors, Books, AllReserved, ClaimsOk, Reaches, IsImage, Image, Reached, FailedDependent;
      ReachesItself(store.w);
      dependency, reverts := None, None;
      if tx.dependsOn.None? || tx.nonce.Some? { return None, None, None; }
      dependency := store.GetTx(tx.dependsOn.value, Signing(s));
      SeenStays(old(store.w), store.w, tx);
      var state := DependencyStateOf(dependency);
      if state == DependencyWaiting { return Some(TxWaiting), dependency, None; }
      var reason := UNSUCCESSFUL_DEPENDENCY;
      if state == DependencyReady {
        // the estimate the submission left out
        reverts := node.Reverts();
        if reverts.None? { return None, dependency, None; }
        reason := reverts.value;
      }
      ghost var read := store.w;
      var outcome := FailDependent(tx, reason, now, s);
      ReachesTransitively(old(store.w), read, store.w);
      if dependency.Some? { SeenStays(read, store.w, dependency.value); }
      r := Some(outcome);
    }

    method FailDependent(tx: TxRecord, reason: string, now: int, ghost s: nat) returns (r: Outcome)
      requires Ready() && RunAt(store.w, s, tx, None, 0, None) && tx.nonce.None?
      modifies store
      ensures Ready() && Reaches(old(store.w), store.w)
      ensures FailedDependent(store.w, tx, reason, Some(r), now)
      ensures store.heard == old(store.heard) && store.lates == old(store.lates) && store.Onward(r.TxThrew?)
    {
      hide WorldOk, Mirrors, Books, AllReserved, ClaimsOk, Reaches, IsImage, Image;
      DependencyImage(tx, reason, now);
      var saved := store.SaveTx(WithStatus(tx, Failed, now).(error := Some(DependencyFailed(reason))), tx,
                                RunWrites(s, DependencyFailure(reason, now)));
      r := if saved.Some? then TxFailed else TxThrew;
    }

    /** One pass over one queued transaction. Everything it does to the table and every send it makes are steps of the
        protocol, whatever the nodes answer and others do meanwhile. It throws only with a cause. */
    method ProcessTx(txId: TxId, cap: Fees, newTxId: TxId, now: int) returns (outcome: Outcome, ghost s: nat)
      requires Ready()
      modifies store, this`reconciled
      ensures Ready() && Reaches(old(store.w), store.w)
      ensures outcome.TxMissing? ==> txId !in store.txs
      ensures outcome.TxSkipped? ==> txId in store.txs && store.txs[txId].status != Queued
      ensures outcome.TxSubmitted? ==> Reached(store.w, txId, Submitted) && SentFor(old(store.w), store.w, txId)
      ensures outcome.TxFailed? ==> Reached(store.w, txId, Failed)
      ensures outcome.TxWaiting? ==> exists tx, dependency: Option<TxRecord> ::
                && Seen(store.w, tx) && tx.txId == txId && Dependent(tx) && DependencyStateOf(dependency) == DependencyWaiting
                && dependency.Some? && Seen(store.w, dependency.value) && Some(dependency.value.txId) == tx.dependsOn
      // a paused signer is asked for nothing more
      ensures outcome.TxPaused? ==>
                store.heard == old(store.heard) + [ConfiguredIs(true), PauseIs(true)] || ShortOfFunds(old(store.w), store.w, txId)
      ensures outcome.TxSubmitted? || outcome.TxFailed? || outcome.TxWaiting? ==>
                old(store.heard) + [ConfiguredIs(true), PauseIs(false)] <= store.heard
      ensures outcome.TxThrew? ==>
                || store.heard == old(store.heard) + [ConfiguredIs(false)]
                || store.mishaps > old(store.mishaps) || store.lates > old(store.lates) || Exhausted(store.w, s)
    {
      hide WorldOk, Mirrors, Books, AllReserved, ClaimsOk, Reaches, IsImage, Reached, Exhausted, ShortOfFunds;
      s := 0;
      var got := store.GetTx(txId);
      if got.None? { outcome := TxMissing; return; }
      var tx := got.value;
      if tx.status != Queued { outcome := TxSkipped; return; }
      s := tx.pair.signer;
      ghost var read := store.w;
      StartRun(tx);
      ReachesTransitively(old(store.w), read, store.w);
      var configured := store.GetSigner();
      if !configured { outcome := TxThrew; return; }
      var paused := store.GetPause();
      if paused {
        assert store.heard == old(store.heard) + [ConfiguredIs(true), PauseIs(true)];
        outcome := TxPaused;
        return;
      }
      assert store.heard == old(store.heard) + [ConfiguredIs(true), PauseIs(false)];
      ghost var began := store.w;
      outcome := Work(tx, cap, newTxId, now, s, old(store.w));
    }

    /** The part of processTx behind its early returns. */
    method Work(tx0: TxRecord, cap: Fees, newTxId: TxId, now: int, ghost s: nat, ghost from: World) returns (outcome: Outcome)
      requires Ready() && RunAt(store.w, s, tx0, None, 0, None) && WorldOk(from) && Reaches(from, store.w)
      modifies store, this`reconciled
      ensures Ready() && Reaches(from, store.w)
      ensures !outcome.TxMissing? && !outcome.TxSkipped?
      ensures outcome.TxSubmitted? ==> Reached(store.w, tx0.txId, Submitted) && SentFor(from, store.w, tx0.txId)
      ensures outcome.TxFailed? ==> Reached(store.w, tx0.txId, Failed)
      ensures outcome.TxWaiting? ==> exists dependency: Option<TxRecord> ::
                && Seen(store.w, tx0) && Dependent(tx0) && DependencyStateOf(dependency) == DependencyWaiting
                && dependency.Some? && Seen(store.w, dependency.value) && Some(dependency.value.txId) == tx0.dependsOn
      ensures outcome.TxPaused? ==> ShortOfFunds(from, store.w, tx0.txId)
      ensures store.Onward(false)
      ensures outcome.TxThrew? ==>
                store.mishaps > old(store.mishaps) || store.lates > old(store.lates) || Exhausted(store.w, s)
    {
      hide WorldOk, Mirrors, Books, AllReserved, ClaimsOk, Reaches, IsImage, Reached, Exhausted, ShortOfFunds, SentFor,
           Saved;
      var early, dependency, reverts := CheckDependency(tx0, now, s);
      ReachesTransitively(from, old(store.w), store.w);
      if early.Some? {
        if early.value.TxFailed? {
          ghost var reason :| Saved(store.w, tx0, DependencyFailure(reason, now));
          SavedHasStatus(store.w, DependencyFailure(reason, now), tx0);
        }
        SeenStays(old(store.w), store.w, tx0);
        return early.value;
      }
      outcome := SendLoop(tx0, cap, newTxId, now, s, from);
    }

    /** Passes until one ends the run: at most three. */
    method SendLoop(tx0: TxRecord, cap: Fees, newTxId: TxId, now: int, ghost s: nat, ghost from: World)
      returns (outcome: Outcome)
      requires Ready() && RunAt(store.w, s, tx0, None, 0, None) && WorldOk(from) && Reaches(from, store.w)
      modifies store, this`reconciled
      ensures Ready() && Reaches(from, store.w)
      ensures !outcome.TxMissing? && !outcome.TxSkipped? && !outcome.TxWaiting?
      ensures outcome.TxSubmitted? ==> Reached(store.w, tx0.txId, Submitted) && SentFor(from, store.w, tx0.txId)
      ensures outcome.TxFailed? ==> Reached(store.w, tx0.txId, Failed)
      ensures outcome.TxPaused? ==> ShortOfFunds(from, store.w, tx0.txId)
      ensures store.Onward(false)
      ensures outcome.TxThrew? ==>
                store.mishaps > old(store.mishaps) || store.lates > old(store.lates) || Exhausted(store.w, s)
    {
      hide WorldOk, Mirrors, Books, AllReserved, ClaimsOk, Reaches, IsImage, Reached, Exhausted, ShortOfFunds, SentFor;
      // set when TakeNonce succeeds; HandleNonceTooLow gives up this nonce alone
      var takenNonce: Option<nat> := None;
      var tx, resets := tx0, 0;
      while true
        invariant Ready() && Reaches(from, store.w) && store.Onward(false)
        invariant RunAt(store.w, s, tx, takenNonce, resets, None) && tx.txId == tx0.txId && resets <= MAX_NONCE_RESETS
        decreases MAX_NONCE_RESETS - resets
      {
        if resets > 0 {
          var tooLate := node.Late();
          if tooLate { return TxThrew; }
        }
        var ended: Option<Outcome>;
        ended, tx, takenNonce := Pass(tx, takenNonce, resets, cap, newTxId, now, s, from);
        if ended.Some? { return ended.value; }
        resets := resets + 1;
      }
    }

    /** One pass of the loop: a nonce and a signature if there is none, a send, and what its answer leads to. */
    method Pass(tx0: TxRecord, taken0: Option<nat>, resets: nat, cap: Fees, newTxId: TxId, now: int, ghost s: nat,
                ghost from: World)
      returns (r: Option<Outcome>, tx: TxRecord, takenNonce: Option<nat>)
      requires Ready() && RunAt(store.w, s, tx0, taken0, resets, None) && resets <= MAX_NONCE_RESETS
      requires WorldOk(from) && Reaches(from, store.w)
      modifies store, this`reconciled
      ensures Ready() && Reaches(from, store.w)
      ensures r.Some? && r.value.TxSubmitted? ==>
                Reached(store.w, tx0.txId, Submitted) && SentFor(from, store.w, tx0.txId)
      ensures r.Some? && r.value.TxFailed? ==> Reached(store.w, tx0.txId, Failed)
      ensures r.Some? && r.value.TxPaused? ==> ShortOfFunds(from, store.w, tx0.txId)
      ensures r.Some? ==> !r.value.TxMissing? && !r.value.TxSkipped? && !r.value.TxWaiting?
      ensures r.None? ==>
                && resets < MAX_NONCE_RESETS && tx.txId == tx0.txId
                && RunAt(store.w, s, tx, takenNonce, resets + 1, None)
      ensures store.Onward(false)
      ensures r == Some(TxThrew) ==> store.mishaps > old(store.mishaps) || Exhausted(store.w, s)
    {
      hide WorldOk, Mirrors, Books, AllReserved, ClaimsOk, Reaches, IsImage, Reached, Saved, SentIn, FailedByRefusal,
           Exhausted, SentFor, ShortOfFunds;
      var ready := PrepareSend(tx0, taken0, cap, now, s, resets);
      ReachesTransitively(from, old(store.w), store.w);
      if ready.None? { return Some(TxThrew), tx0, taken0; }
      tx := ready.value;
      takenNonce := if tx0.nonce.None? then tx.nonce else taken0;

      ghost var before := store.w;
      var answer := SendLatest(tx, s, takenNonce, resets);
      SentAfter(from, before, store.w, SendOf(tx, tx.txId, |tx.attempts| - 1, answer));
      ReachesTransitively(from, before, store.w);
      r, tx := AfterSend(tx, answer, takenNonce, resets, newTxId, now, s, from);
    }

    /** What a send of this pass leads to. */
    method AfterSend(tx: TxRecord, answer: SendOutcome, takenNonce: Option<nat>, resets: nat, newTxId: TxId, now: int,
                     ghost s: nat, ghost from: World)
      returns (r: Option<Outcome>, next: TxRecord)
      requires Ready() && RunAt(store.w, s, tx, takenNonce, resets, Some(answer)) && resets <= MAX_NONCE_RESETS
      requires tx.nonce.Some? && tx.attempts != [] && WorldOk(from) && Reaches(from, store.w)
      requires SentIn(from, store.w, SendOf(tx, tx.txId, |tx.attempts| - 1, answer))
      modifies store, this`reconciled
      ensures Ready() && Reaches(from, store.w)
      ensures r.Some? && r.value.TxSubmitted? ==> Reached(store.w, tx.txId, Submitted) && SentFor(from, store.w, tx.txId)
      ensures r.Some? && r.value.TxFailed? ==> Reached(store.w, tx.txId, Failed)
      ensures r.Some? && r.value.TxPaused? ==> ShortOfFunds(from, store.w, tx.txId)
      ensures r.Some? ==> !r.value.TxMissing? && !r.value.TxSkipped? && !r.value.TxWaiting?
      ensures r.None? ==>
                && resets < MAX_NONCE_RESETS && next.txId == tx.txId
                && RunAt(store.w, s, next, takenNonce, resets + 1, None)
      ensures store.Onward(false)
      ensures r == Some(TxThrew) ==> store.mishaps > old(store.mishaps) || Exhausted(store.w, s)
    {
      hide WorldOk, Mirrors, Books, AllReserved, ClaimsOk, Reaches, IsImage, Reached, Saved, SentIn, FailedByRefusal,
           Exhausted, SentFor, ShortOfFunds;
      ghost var sent, send := store.w, SendOf(tx, tx.txId, |tx.attempts| - 1, answer);
      next := tx;
      if !answer.NonceTooLow? {
        var outcome := SettleSend(tx, answer, newTxId, now, s, takenNonce, resets);
        SettledIsReached(store.w, tx, answer, newTxId, now, outcome);
        r := Some(outcome);
      } else {
        ghost var asked;
        r, next, asked := HandleNonceTooLow(tx, takenNonce, resets, answer.message, now, s);
        if r.Some? && r.value.TxSubmitted? { SavedHasStatus(store.w, LeftToSweeper(now), tx); }
      }
      ReachesTransitively(from, sent, store.w);
      SentStays(from, sent, store.w, send);
      SendIsFor(from, store.w, send);
    }

    /** The run begins with the queued record it read. */
    ghost method StartRun(tx: TxRecord)
      requires Ready() && tx.txId in store.txs && store.txs[tx.txId] == tx && tx.status == Queued && Seen(store.w, tx)
      modifies store`w
      ensures Ready() && Reaches(old(store.w), store.w) && RunAt(store.w, tx.pair.signer, tx, None, 0, None)
    {
      hide WorldOk, Books, AllReserved, ClaimsOk, Reaches, IsImage, CanStep, Do;
      StartDoes(store.w, tx);
      store.Take(RunStarts(tx.pair.signer, tx.txId));
    }

    /** A nonce and a saved signature, if the record has none yet. */
    method PrepareSend(tx: TxRecord, takenNonce: Option<nat>, cap: Fees, now: int, ghost s: nat, ghost resets: nat)
      returns (ready: Option<TxRecord>)
      requires Ready() && RunAt(store.w, s, tx, takenNonce, resets, None)
      modifies store, this`reconciled
      ensures Ready() && Reaches(old(store.w), store.w)
      ensures ready.Some? ==>
                && ready.value.nonce.Some? && ready.value.attempts != [] && ready.value.txId == tx.txId
                && (tx.nonce.Some? ==> ready.value.nonce == tx.nonce)
                && RunAt(store.w, s, ready.value, if tx.nonce.None? then ready.value.nonce else takenNonce, resets, None)
      ensures store.lates == old(store.lates) && store.Onward(ready.None?)
    {
      hide WorldOk, Mirrors, Books, AllReserved, ClaimsOk, Reaches, IsImage;
      ReachesItself(store.w);
      var current := tx;
      if tx.nonce.None? {
        var next, pending, at := TakeNonce(tx, s, takenNonce, resets);
        if next.None? { return None; }
        current := next.value;
      }
      if current.attempts == [] {
        ghost var before := store.w;
        var next := SignFirst(current, cap, now, s, if tx.nonce.None? then current.nonce else takenNonce, resets);
        ReachesTransitively(old(store.w), before, store.w);
        if next.None? { return None; }
        current := next.value;
      }
      return Some(current);
    }

    /** Sends the signature that was just saved, or was saved by a run before. */
    method SendLatest(tx: TxRecord, ghost s: nat, ghost takenNonce: Option<nat>, ghost resets: nat)
      returns (outcome: SendOutcome)
      requires Ready() && RunAt(store.w, s, tx, takenNonce, resets, None) && tx.nonce.Some? && tx.attempts != []
      modifies store
      ensures Ready() && Reaches(old(store.w), store.w)
      ensures RunAt(store.w, s, tx, takenNonce, resets, Some(outcome))
      ensures SentIn(old(store.w), store.w, SendOf(tx, tx.txId, |tx.attempts| - 1, outcome))
      ensures store.Called(false) && store.clashes == old(store.clashes)
    {
      hide WorldOk, Mirrors, Books, AllReserved, ClaimsOk, Reaches, IsImage, Good, SentIn;
      CopyIsGood(store.w, tx);
      QueuedHasBytes(tx);
      outcome := node.Send(tx.attempts[|tx.attempts| - 1].raw, BySigner(s));
      SeenStays(old(store.w), store.w, tx);
    }
  }

  lemma QueuedHasBytes(tx: TxRecord)
    requires Good(tx) && tx.status == Queued && tx.attempts != []
    ensures tx.attempts[|tx.attempts| - 1].raw.Bytes?
  {
  }
}
