/** What each write leaves for the decisions that come after it (services/relayer/src/records.ts, signer.ts, sweeper.ts). */
module RelayerEffects {
  import opened Wrappers
  import opened ReplacementFees
  import opened RelayerRecords
  import opened RelayerEvents
  import opened RelayerInvariants
  import RelayerSweeper

  /** A replacement is wanted after each answer that called a signature underpriced, until one is signed, a receipt comes, or
      a node takes bytes it had refused. */
  lemma WantsABump(e: Event, tx: TxRecord)
    requires Enabled(e, tx)
    ensures Apply(e, tx).needsBump <==>
            || e.SignerUnderpriced? || e.BumpNeeded? || (e.ReplacementRefused? && e.underpriced)
            || (tx.needsBump && !e.Replaced? && !e.MinedSeen?
                && !(e.Rebroadcast? && tx.attempts[e.index].rejected.Some?))
  {
    hide Enabled, Decide, MayBeMined;
    Columns(e, tx);
    BumpColumn(e, tx);
  }

  /** The fee-cap flag stands from the write that set it until a node takes a replacement or bytes it had refused; that of
      the retired hashes stands for good. */
  lemma FlagsAre(e: Event, tx: TxRecord)
    requires Enabled(e, tx)
    ensures Apply(e, tx).feeCapReached <==>
            || e.FeeCapFlagged?
            || (tx.feeCapReached && !e.ReplacementTaken? && !(e.Rebroadcast? && tx.attempts[e.index].rejected.Some?))
    ensures Apply(e, tx).retiredHashesFull <==> tx.retiredHashesFull || e.RetiredFullFlagged?
  {
    hide Enabled, Decide, MayBeMined;
    Columns(e, tx);
    BumpColumn(e, tx);
  }

  lemma BumpColumn(e: Event, tx: TxRecord)
    requires Enabled(e, tx)
    ensures Apply(e, tx).needsBump == NextNeedsBump(e, tx) && (e.Rebroadcast? ==> e.index < |tx.attempts|)
    ensures Apply(e, tx).feeCapReached == NextFeeCapReached(e, tx)
    ensures Apply(e, tx).retiredHashesFull == (tx.retiredHashesFull || e.RetiredFullFlagged?)
  {
    hide NextStatus, NextAttempts, NextRetired, NextRetiredAccepted, NextLookup, NextNeedsBump, NextFeeCapReached, NextMined,
         NextUsedAtBlock, NextUsedAt, NextError, NextFiller, NextNonce, Clock, AbandonedWith, WithStatus, Decide, MayBeMined;
  }

  /** The signature a write records as taken by a node, and the one it records as refused, with what was said. */
  function TakenBy(e: Event, tx: TxRecord): Option<Hash> {
    match e
    case SignerTaken(_) => if tx.attempts != [] then Some(LatestHash(tx)) else None
    case MinedSeen(receipt, _) => Some(receipt.hash)
    case ReplacementTaken(hash, _) => Some(hash)
    case Rebroadcast(index, _) => if index < |tx.attempts| then Some(tx.attempts[index].hash) else None
    case _ => None
  }

  function RefusedBy(e: Event, tx: TxRecord): Option<(Hash, string)> {
    match e
    case SignerUnderpriced(message, _) => if tx.attempts != [] then Some((LatestHash(tx), message)) else None
    case RefusalKept(hash, reason, _) => Some((hash, reason))
    case RefusalFailed(hash, reason, _, _) => Some((hash, reason))
    case ReplacementRefused(hash, message, _) => Some((hash, message))
    case _ => None
  }

  /** Every attempt with the hash a node took is on record as accepted, every one with the hash it refused as refused, for
      that reason; a refused one loses its refusal only when those very bytes were taken again; and nothing else of any
      attempt changes but the time it went out. */
  lemma AnswersAreNoted(e: Event, tx: TxRecord, i: nat)
    requires Enabled(e, tx) && !e.FirstSigned? && !e.NonceGivenUp? && !e.Replaced? && i < |tx.attempts|
    ensures var n, a := Apply(e, tx).attempts, tx.attempts[i];
            && |n| == |tx.attempts|
            && n[i] == a.(acceptedAt := n[i].acceptedAt, rejected := n[i].rejected, broadcastAt := n[i].broadcastAt)
            && (n[i].acceptedAt.Some? <==> a.acceptedAt.Some? || TakenBy(e, tx) == Some(a.hash))
            && (a.acceptedAt.Some? ==> n[i].acceptedAt == a.acceptedAt)
            && n[i].rejected == (if RefusedBy(e, tx).Some? && RefusedBy(e, tx).value.0 == a.hash
                                 then Some(RefusedBy(e, tx).value.1)
                                 else if SentAgain(e, tx, i) && tx.attempts[e.index].rejected.Some? then None
                                 else a.rejected)
            && n[i].broadcastAt == if SentAgain(e, tx, i) then Some(e.now) else a.broadcastAt
  {
    hide Enabled, Apply, NextAttempts;
    AttemptsAre(e, tx);
    AttemptsByAnswers(e, tx);
  }

  /** The column, by what was said. */
  lemma AttemptsByAnswers(e: Event, tx: TxRecord)
    requires Enabled(e, tx) && !e.FirstSigned? && !e.NonceGivenUp? && !e.Replaced?
    ensures var n := NextAttempts(e, tx);
            || (TakenBy(e, tx).None? && RefusedBy(e, tx).None? && n == tx.attempts)
            || (TakenBy(e, tx).Some? && RefusedBy(e, tx).None? && !e.Rebroadcast?
                && exists at :: n == MarkAccepted(tx.attempts, TakenBy(e, tx).value, at))
            || (TakenBy(e, tx).None? && RefusedBy(e, tx).Some?
                && n == MarkRejected(tx.attempts, RefusedBy(e, tx).value.0, RefusedBy(e, tx).value.1))
            || (e.Rebroadcast? && e.index < |tx.attempts| && n == TakenAgainAll(tx.attempts, tx.attempts[e.index], e.now))
  {
    hide Decide, MayBeMined, WalkHashes, ReadyToFail, ReceiptHashes, HasHash, MakeRoom, Kept, MarkAccepted, MarkRejected;
    match e
    case SignerTaken(now) => assert NextAttempts(e, tx) == MarkAccepted(tx.attempts, LatestHash(tx), now);
    case MinedSeen(receipt, now) => assert NextAttempts(e, tx) == MarkAccepted(tx.attempts, receipt.hash, now);
    case ReplacementTaken(hash, now) => assert NextAttempts(e, tx) == MarkAccepted(tx.attempts, hash, now);
    case _ =>
  }

  /** These are the bytes a rebroadcast sent. */
  predicate SentAgain(e: Event, tx: TxRecord, i: nat)
    requires i < |tx.attempts|
  {
    && e.Rebroadcast? && e.index < |tx.attempts|
    && tx.attempts[i].hash == tx.attempts[e.index].hash && tx.attempts[i].raw == tx.attempts[e.index].raw
  }

  lemma AttemptsAre(e: Event, tx: TxRecord)
    requires Enabled(e, tx)
    ensures Apply(e, tx).attempts == NextAttempts(e, tx)
    ensures e.SignerTaken? || e.SignerUnderpriced? ==> tx.attempts != []
    ensures e.Rebroadcast? ==> e.index < |tx.attempts|
  {
    hide NextStatus, NextAttempts, NextRetired, NextRetiredAccepted, NextLookup, NextNeedsBump, NextFeeCapReached, NextMined,
         NextUsedAtBlock, NextUsedAt, NextError, NextFiller, NextNonce, Clock, AbandonedWith, WithStatus, Decide, MayBeMined;
  }

  /** Bytes that were refused and are taken again are live from then on. */
  lemma RevivedIsLive(tx: TxRecord, index: nat, now: int)
    requires Enabled(Rebroadcast(index, now), tx)
    ensures LiveIndex(Apply(Rebroadcast(index, now), tx).attempts).Some?
  {
    hide Image;
    AnswersAreNoted(Rebroadcast(index, now), tx, index);
  }

  /** With every other signature refused and none on record as taken, a refusal fails the transaction, at any age of it. */
  lemma LastRefusalFails(tx: TxRecord, hash: Hash)
    requires !Taken(tx) && forall i :: 0 <= i < |tx.attempts| && tx.attempts[i].hash != hash ==> tx.attempts[i].rejected.Some?
    ensures !MayBeMined(tx, hash)
  {
  }

  // The clocks

  /** A signature that just went out, for the first time or again, is not stuck until the threshold has passed. */
  lemma JustSentIsNotStuck(e: Event, tx: TxRecord, stuckAfter: int, later: int)
    requires Enabled(e, tx) && (e.FirstSigned? || e.Replaced? || e.Rebroadcast?)
    requires later - (if e.Rebroadcast? then e.now else e.attempt.signedAt) < stuckAfter
    ensures !RelayerSweeper.IsStuck(Apply(e, tx), stuckAfter, later)
  {
    hide Image, RelayerSweeper.LastSentAt, Enabled, Decide, MakeRoom;
    AttemptsAre(e, tx);
    var n := Apply(e, tx).attempts;
    if e.Rebroadcast? {
      AnswersAreNoted(e, tx, e.index);
      SentSince(n, e.index, e.now);
    } else {
      FreshIsLast(e, tx);
      SentSince(n, |n| - 1, e.attempt.signedAt);
    }
  }

  lemma SentSince(attempts: seq<Attempt>, i: nat, at: int)
    requires i < |attempts| && RelayerSweeper.SentAt(attempts[i]) == at
    ensures RelayerSweeper.LastSentAt(attempts) >= at
  {
  }

  lemma FreshIsLast(e: Event, tx: TxRecord)
    requires Enabled(e, tx) && (e.FirstSigned? || e.Replaced?)
    ensures var n := NextAttempts(e, tx);
            n != [] && n[|n| - 1] == e.attempt && RelayerSweeper.SentAt(e.attempt) == e.attempt.signedAt
  {
    hide Decide, MakeRoom, Kept;
  }

  /** A requeued transaction is not stale again before the time has passed anew. */
  lemma RequeuedIsNotStale(tx: TxRecord, now: int)
    requires Enabled(Requeued(now), tx)
    ensures Apply(Requeued(now), tx).enqueuedAt == now && Apply(Requeued(now), tx).status == Queued
  {
  }

  /** The wait of a used nonce: it is counted from the head of the first sighting and the time of this one, and over as soon
      as both have come far enough; a free nonce and a receipt end it at once. */
  lemma TheWaitIs(e: Event, tx: TxRecord, head: nat, now: int, settings: Settings)
    requires Enabled(e, tx)
    ensures var n := Apply(e, tx);
            && (e.NonceSeenUsed? ==>
                  (ReadyToFail(n, head, now, settings) <==>
                     && head - (if tx.nonceUsedAtBlock.Some? then tx.nonceUsedAtBlock.value else e.head) >= settings.confirmations
                     && now - e.now >= settings.nonceUsedMinAge))
            && (e.NonceSeenFree? || e.MinedSeen? ==> !ReadyToFail(n, head, now, settings))
            && (!e.NonceSeenUsed? && !e.NonceSeenFree? && !e.MinedSeen? ==>
                  (ReadyToFail(n, head, now, settings) <==> ReadyToFail(tx, head, now, settings)))
  {
    hide Image, Enabled;
    Columns(e, tx);
  }

  // Endings

  /** A change of status is dated by the write that makes it, as the last entry of the history. */
  lemma StatusChangeIsDated(e: Event, tx: TxRecord)
    requires Enabled(e, tx) && Apply(e, tx).status != tx.status
    ensures var n := Apply(e, tx);
            n.history != [] && n.history[|n.history| - 1] == HistoryEntry(n.status, e.now)
  {
    hide Enabled, WithStatus;
    Columns(e, tx);
    HistoryColumn(e, tx);
    LastEntry(tx, NextStatus(e, tx), Clock(e));
  }

  lemma HistoryColumn(e: Event, tx: TxRecord)
    requires Enabled(e, tx)
    ensures Apply(e, tx).history == WithStatus(tx, NextStatus(e, tx), Clock(e)).history
  {
    hide Enabled, NextStatus, NextAttempts, NextRetired, NextRetiredAccepted, NextLookup, NextNeedsBump, NextFeeCapReached,
         NextMined, NextUsedAtBlock, NextUsedAt, NextError, NextFiller, NextNonce, Clock, AbandonedWith, WithStatus;
  }

  lemma LastEntry(tx: TxRecord, status: Status, at: int)
    requires status != tx.status
    ensures var n := WithStatus(tx, status, at);
            n.history != [] && n.history[|n.history| - 1] == HistoryEntry(status, at)
  {
  }

  /** The receipt saved is the one that came, and a reorg takes it away. */
  lemma ReceiptIsKept(e: Event, tx: TxRecord)
    requires Enabled(e, tx)
    ensures Apply(e, tx).mined == if e.MinedSeen? then Some(e.receipt) else if e.Reorged? then None else tx.mined
  {
    hide Image, Enabled;
    Columns(e, tx);
  }

  /** A dependency is waited for exactly while it can still change, and is good exactly when it is confirmed with success. */
  lemma WaitingMeansUnsettled(tx: TxRecord)
    requires Good(tx)
    ensures DependencyStateOf(Some(tx)) == DependencyWaiting <==> exists e :: Enabled(e, tx)
    ensures DependencyStateOf(Some(tx)) == DependencyReady <==>
            tx.status == Confirmed && tx.mined.Some? && tx.mined.value.success
    ensures DependencyStateOf(None) == DependencyUnsuccessful
  {
    hide Good;
    match tx.status {
      case Queued => assert Enabled(Requeued(0), tx);
      case Submitted => assert Enabled(MinedSeen(Receipt(0, 0, 0, true), 0), tx);
      case Mined => assert Enabled(BecameConfirmed(0), tx);
      case _ =>
        forall e ensures !Enabled(e, tx) {
          hide MayBeMined, Decide, ReadyToFail, WalkHashes, ReceiptHashes;
        }
    }
  }

  /** A nonce is given up with all there is of it: the last signatures made at it are filed, refused for this reason. */
  lemma GivenUpIsFiled(tx: TxRecord, message: string)
    requires Enabled(NonceGivenUp(message), tx) && tx.nonce.Some?
    ensures var n := Apply(NonceGivenUp(message), tx);
            && n.nonce == None && n.attempts == []
            && forall i :: 0 <= i < |tx.attempts| && i >= |tx.attempts| - MAX_ABANDONED_ATTEMPTS ==>
                 Abandoned(tx.attempts[i].(raw := Stripped, rejected := Some(message)), tx.nonce.value) in n.abandoned
  {
    hide Image, AbandonedWith, LastFour;
    Columns(NonceGivenUp(message), tx);
    AbandonedColumn(tx, message);
    LastAreFiled(tx, message);
    assert NextAttempts(NonceGivenUp(message), tx) == [] && NextNonce(NonceGivenUp(message), tx) == None;
  }

  lemma AbandonedColumn(tx: TxRecord, message: string)
    requires Enabled(NonceGivenUp(message), tx) && tx.nonce.Some?
    ensures Apply(NonceGivenUp(message), tx).abandoned == AbandonedWith(tx, message)
  {
    hide AbandonedWith, WithStatus;
  }

  lemma LastAreFiled(tx: TxRecord, message: string)
    requires tx.nonce.Some?
    ensures forall i :: 0 <= i < |tx.attempts| && i >= |tx.attempts| - MAX_ABANDONED_ATTEMPTS ==>
              Abandoned(tx.attempts[i].(raw := Stripped, rejected := Some(message)), tx.nonce.value) in AbandonedWith(tx, message)
  {
    var given := seq(|tx.attempts|, i requires 0 <= i < |tx.attempts| =>
                       Abandoned(tx.attempts[i].(raw := Stripped, rejected := Some(message)), tx.nonce.value));
    var all, kept := tx.abandoned + given, AbandonedWith(tx, message);
    forall i | 0 <= i < |tx.attempts| && i >= |tx.attempts| - MAX_ABANDONED_ATTEMPTS
      ensures Abandoned(tx.attempts[i].(raw := Stripped, rejected := Some(message)), tx.nonce.value) in kept
    {
      assert all[|tx.abandoned| + i] == given[i];
      assert kept[|tx.abandoned| + i - (|all| - |kept|)] == given[i];
    }
  }

  // Which attempts give way

  /** The attempts without a refusal. */
  ghost function Unanswered(attempts: seq<Attempt>): set<nat> { set i: nat | i < |attempts| && attempts[i].rejected.None? }

  lemma {:induction false} UnrefusedAreCounted(attempts: seq<Attempt>)
    ensures Unrefused(attempts) == |Unanswered(attempts)|
  {
    if attempts != [] {
      var front, last := attempts[..|attempts| - 1], attempts[|attempts| - 1];
      assert attempts == front + [last];
      UnrefusedAreCounted(front);
      SignedOfConcat(front, [last]);
      assert [last][1..] == [];
      assert Unanswered(attempts) == Unanswered(front) + if last.rejected.None? then {|front|} else {};
    }
  }

  /** Bytes go from the oldest refusals first: behind a stripped one no older refusal keeps its bytes. */
  lemma {:induction false} OldestGoFirst(attempts: seq<Attempt>, over: int, j: nat, i: nat)
    requires j < i < |attempts| && attempts[j].rejected.Some?
    requires i < |StripOldest(attempts, over)| && StripOldest(attempts, over)[i] != attempts[i]
    ensures StripOldest(attempts, over)[j].raw.Stripped?
  {
    if over > 0 && j > 0 {
      var less := if attempts[0].rejected.None? || attempts[0].raw.Stripped? then over else over - 1;
      var rest := StripOldest(attempts[1..], less);
      assert StripOldest(attempts, over)[i] == rest[i - 1] && StripOldest(attempts, over)[j] == rest[j - 1];
      OldestGoFirst(attempts[1..], less, j - 1, i - 1);
    }
  }

  /** What is dropped is the oldest refusal without bytes, or, with bytes on all of them, the oldest of them. */
  lemma OldestIsDropped(attempts: seq<Attempt>, j: nat)
    requires DropIndex(attempts).Some? && j < |attempts| && attempts[j].rejected.Some?
    ensures var d := DropIndex(attempts).value;
            && d < |attempts| && attempts[d].rejected.Some?
            && (attempts[j].raw.Stripped? ==> attempts[d].raw.Stripped? && d <= j)
            && (attempts[d].raw.Bytes? ==> d <= j)
  {
  }
}
