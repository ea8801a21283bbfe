/** What every image of a transaction record keeps, whatever writes are made to it in whatever order. */
module RelayerInvariants {
  import opened Wrappers
  import opened ReplacementFees
  import opened RelayerRecords
  import opened RelayerEvents

  // Counting signatures

  ghost predicate SameRaws(a: seq<Attempt>, b: seq<Attempt>) {
    |a| == |b| && forall i :: 0 <= i < |a| ==> a[i].raw == b[i].raw
  }

  lemma {:induction false} SameRawsSameSigned(a: seq<Attempt>, b: seq<Attempt>)
    requires SameRaws(a, b)
    ensures Signed(a) == Signed(b)
  {
    if a != [] {
      assert SameRaws(a[1..], b[1..]) by {
        forall i | 0 <= i < |a| - 1 ensures a[1..][i].raw == b[1..][i].raw {
          assert a[1..][i] == a[i + 1] && b[1..][i] == b[i + 1];
        }
      }
      SameRawsSameSigned(a[1..], b[1..]);
    }
  }

  lemma {:induction false} SignedOfConcat(a: seq<Attempt>, b: seq<Attempt>)
    ensures Signed(a + b) == Signed(a) + Signed(b)
    ensures Unrefused(a + b) == Unrefused(a) + Unrefused(b)
  {
    if a == [] {
      assert a + b == b;
    } else {
      assert (a + b)[1..] == a[1..] + b;
      SignedOfConcat(a[1..], b);
    }
  }

  lemma RemovedAreFewer(a: seq<Attempt>, i: nat)
    requires i < |a| && a[i].rejected.Some?
    ensures Signed(RemoveAt(a, i)) <= Signed(a) && Unrefused(RemoveAt(a, i)) == Unrefused(a)
  {
    assert a == a[..i] + ([a[i]] + a[i + 1..]);
    SignedOfConcat(a[..i], [a[i]] + a[i + 1..]);
    SignedOfConcat([a[i]], a[i + 1..]);
    SignedOfConcat(a[..i], a[i + 1..]);
  }

  lemma BackedTail(a: seq<Attempt>)
    requires a != [] && Backed(a)
    ensures Backed(a[1..])
    ensures (a[0].raw.Bytes? ==> a[0].hash == a[0].raw.content) && (a[0].rejected.None? ==> a[0].raw.Bytes?)
  {
  }

  /** Stripping keeps the attempts, their hashes and answers, and takes bytes only from refused ones: down to the
      unrefused signatures if need be. */
  lemma {:induction false} StripHolds(a: seq<Attempt>, over: int)
    requires Backed(a)
    ensures var s := StripOldest(a, over);
            && |s| == |a| && Backed(s)
            && (forall i :: 0 <= i < |a| ==> s[i] == a[i] || (a[i].rejected.Some? && s[i] == a[i].(raw := Stripped)))
    ensures over > 0 && Signed(a) - over >= Unrefused(a) ==> Signed(StripOldest(a, over)) <= Signed(a) - over
    ensures Signed(StripOldest(a, over)) <= Signed(a)
  {
    if a != [] && over > 0 {
      BackedTail(a);
      if a[0].rejected.None? || a[0].raw.Stripped? {
        StripHolds(a[1..], over);
      } else {
        StripHolds(a[1..], over - 1);
        UnrefusedAreSigned(a[1..]);
      }
    }
  }

  lemma StripNothing(attempts: seq<Attempt>, over: int)
    requires over <= 0
    ensures StripOldest(attempts, over) == attempts
  {
  }

  lemma {:induction false} UnrefusedAreSigned(a: seq<Attempt>)
    requires Backed(a)
    ensures Unrefused(a) <= Signed(a) <= |a|
  {
    if a != [] {
      BackedTail(a);
      UnrefusedAreSigned(a[1..]);
    }
  }

  lemma {:induction false} NoneLive(a: seq<Attempt>)
    requires forall i :: 0 <= i < |a| ==> a[i].rejected.Some?
    ensures Unrefused(a) == 0
  {
    if a != [] { NoneLive(a[1..]); }
  }

  /** The limit on unrefused signatures guards every signing. */
  lemma SigningIsLimited(tx: TxRecord, estimate: Fees, cap: Fees)
    requires Decide(tx, estimate, cap).Sign?
    ensures Unrefused(tx.attempts) < MAX_ATTEMPTS
    ensures |tx.attempts| >= MAX_STORED_ATTEMPTS ==> Dropped(tx).Some? && |tx.retiredHashes| < MAX_RETIRED_HASHES
  {
    if LiveIndex(tx.attempts).None? { NoneLive(tx.attempts); }
  }

  lemma {:induction false} RevivedAreMore(a: seq<Attempt>, b: seq<Attempt>, i: nat)
    requires |a| == |b| && i < |a| && a[i].rejected.Some? && b[i].rejected.None?
    requires forall k :: 0 <= k < |a| && a[k].rejected.None? ==> b[k].rejected.None?
    ensures Unrefused(b) > Unrefused(a)
    decreases |a|
  {
    if i > 0 {
      RevivedAreMore(a[1..], b[1..], i - 1);
    } else {
      StillUnrefused(a[1..], b[1..]);
    }
  }

  lemma {:induction false} StillUnrefused(a: seq<Attempt>, b: seq<Attempt>)
    requires |a| == |b| && forall k :: 0 <= k < |a| && a[k].rejected.None? ==> b[k].rejected.None?
    ensures Unrefused(b) >= Unrefused(a)
  {
    if a != [] { StillUnrefused(a[1..], b[1..]); }
  }

  /** The limit does not guard revivals: bytes a node takes after refusing them are one signature more, also when there
      are as many as may be signed already. */
  lemma RevivalPassesTheLimit(tx: TxRecord, index: nat, now: int)
    requires Enabled(Rebroadcast(index, now), tx) && tx.attempts[index].rejected.Some?
    ensures Unrefused(Apply(Rebroadcast(index, now), tx).attempts) > Unrefused(tx.attempts)
  {
    hide Enabled, Apply;
    var e := Rebroadcast(index, now);
    AttemptsColumn(e, tx);
    RevivesOne(tx, index, now);
    RevivedAreMore(tx.attempts, NextAttempts(e, tx), index);
  }

  lemma RevivesOne(tx: TxRecord, index: nat, now: int)
    requires Enabled(Rebroadcast(index, now), tx) && tx.attempts[index].rejected.Some?
    ensures var next := NextAttempts(Rebroadcast(index, now), tx);
            && index < |next| == |tx.attempts| && next[index].rejected.None? && tx.attempts[index].rejected.Some?
            && forall k :: 0 <= k < |next| && tx.attempts[k].rejected.None? ==> next[k].rejected.None?
  {
  }

  lemma KeptHolds(tx: TxRecord)
    requires Backed(tx.attempts)
    ensures Backed(Kept(tx)) && Signed(Kept(tx)) <= Signed(tx.attempts) && Unrefused(Kept(tx)) == Unrefused(tx.attempts)
    ensures |Kept(tx)| == if Dropped(tx).Some? then |tx.attempts| - 1 else |tx.attempts|
  {
    if Dropped(tx).Some? { RemovedAreFewer(tx.attempts, Dropped(tx).value); }
  }

  lemma ReplacedColumns(tx: TxRecord, estimate: Fees, cap: Fees, a: Attempt)
    requires Enabled(Replaced(estimate, cap, a), tx)
    ensures var n := Apply(Replaced(estimate, cap, a), tx);
            && n.attempts == MakeRoom(Kept(tx)) + [a] && n.retiredHashes == RetiredWith(tx) && n.abandoned == tx.abandoned
            && |RetiredWith(tx)| <= |tx.retiredHashes| + (if Dropped(tx).Some? then 1 else 0)
            && Fresh(a) && (Dropped(tx).Some? ==> |tx.attempts| >= MAX_STORED_ATTEMPTS)
  {
    hide Decide, DropIndex, Kept, MakeRoom, Hashes;
  }

  /** After makeRoom one signature can be added within MAX_SIGNED_ATTEMPTS. */
  lemma RoomHolds(kept: seq<Attempt>)
    requires Backed(kept) && Unrefused(kept) < MAX_ATTEMPTS
    ensures |MakeRoom(kept)| == |kept| && Backed(MakeRoom(kept)) && Signed(MakeRoom(kept)) < MAX_SIGNED_ATTEMPTS
  {
    hide StripOldest, Signed, Unrefused, Backed;
    StripHolds(kept, Signed(kept) + 1 - MAX_SIGNED_ATTEMPTS);
  }

  lemma OneMore(attempts: seq<Attempt>, a: Attempt)
    requires Backed(attempts) && Fresh(a)
    ensures Backed(attempts + [a]) && Signed(attempts + [a]) == Signed(attempts) + 1
  {
    SignedOfConcat(attempts, [a]);
    assert Signed([a]) == 1 by { assert [a][1..] == []; }
  }

  /** Signing one more keeps the record within its size and backed by bytes. */
  lemma ReplacedKeepsBounds(tx: TxRecord, estimate: Fees, cap: Fees, a: Attempt)
    requires Bounded(tx) && Backed(tx.attempts) && Enabled(Replaced(estimate, cap, a), tx)
    ensures Bounded(Apply(Replaced(estimate, cap, a), tx)) && Backed(Apply(Replaced(estimate, cap, a), tx).attempts)
  {
    hide Apply, Decide, Kept, Dropped, MakeRoom, RetiredWith, Signed, Unrefused, Backed, Fresh;
    ReplacedColumns(tx, estimate, cap, a);
    SigningIsLimited(tx, estimate, cap);
    KeptHolds(tx);
    RoomHolds(Kept(tx));
    OneMore(MakeRoom(Kept(tx)), a);
  }

  lemma WithStatusKeeps(tx: TxRecord, status: Status, now: int)
    ensures var n := WithStatus(tx, status, now);
            n == tx.(status := status, history := n.history, historyBase := n.historyBase)
  {
    hide AddEntry;
  }

  /** The columns of a saved image. */
  lemma Columns(e: Event, tx: TxRecord)
    requires Enabled(e, tx)
    ensures var n := Apply(e, tx);
            && n.txId == tx.txId && n.kind == tx.kind && n.pair == tx.pair && n.fillsTxId == tx.fillsTxId
            && n.value == tx.value && n.gasLimit == tx.gasLimit && n.createdAt == tx.createdAt && n.dependsOn == tx.dependsOn
            && n.version == tx.version + 1
            && n.status == NextStatus(e, tx) && n.nonce == NextNonce(e, tx) && n.attempts == NextAttempts(e, tx)
            && n.retiredHashes == NextRetired(e, tx) && n.retiredAccepted == NextRetiredAccepted(e, tx)
            && n.lookupFrom == NextLookup(e, tx) && n.mined == NextMined(e, tx)
            && n.nonceUsedAtBlock == NextUsedAtBlock(e, tx) && n.nonceUsedAt == NextUsedAt(e, tx)
            && n.error == NextError(e, tx) && n.fillerTxId == NextFiller(e, tx)
            && (!e.NonceGivenUp? ==> n.abandoned == tx.abandoned)
            && (e.NonceGivenUp? ==> |n.abandoned| <= MAX_ABANDONED_ATTEMPTS || n.abandoned == tx.abandoned)
  {
    hide Enabled, NextStatus, NextAttempts, NextRetired, NextRetiredAccepted, NextLookup, NextNeedsBump,
         NextFeeCapReached, NextMined, NextUsedAtBlock, NextUsedAt, NextError, NextFiller, NextNonce, Clock,
         WithStatus;
    WithStatusKeeps(tx, NextStatus(e, tx), Clock(e));
  }

  lemma BoundedStep(e: Event, tx: TxRecord)
    requires Bounded(tx) && Backed(tx.attempts) && Enabled(e, tx)
    ensures Bounded(Apply(e, tx))
  {
    hide Image, Decide, ClampFees;
    Columns(e, tx);
    if e.Replaced? {
      ReplacedKeepsBounds(tx, e.estimate, e.cap, e.attempt);
    } else if e.FirstSigned? {
      assert NextAttempts(e, tx)[1..] == [];
    } else if !e.NonceGivenUp? {
      SameRawsSameSigned(NextAttempts(e, tx), tx.attempts);
    }
  }

  lemma AttemptsColumn(e: Event, tx: TxRecord)
    requires Enabled(e, tx)
    ensures Apply(e, tx).attempts == NextAttempts(e, tx)
  {
    hide Enabled, NextAttempts, WithStatus;
  }

  lemma NextAreBacked(e: Event, tx: TxRecord)
    requires Backed(tx.attempts) && Enabled(e, tx) && !e.Replaced?
    ensures Backed(NextAttempts(e, tx))
  {
    hide Decide, ClampFees, ReceiptHashes, WalkHashes, WalkStart, WalkEnd, MayBeMined, HasHash, ReadyToFail;
  }

  lemma BackedStep(e: Event, tx: TxRecord)
    requires Bounded(tx) && Backed(tx.attempts) && Enabled(e, tx)
    ensures Backed(Apply(e, tx).attempts)
  {
    hide Apply, Enabled, NextAttempts, Backed;
    AttemptsColumn(e, tx);
    if e.Replaced? {
      ReplacedKeepsBounds(tx, e.estimate, e.cap, e.attempt);
    } else {
      NextAreBacked(e, tx);
    }
  }

  lemma LogsStep(e: Event, tx: TxRecord)
    requires LogsItsStatus(tx) && Enabled(e, tx)
    ensures LogsItsStatus(Apply(e, tx))
  {
    hide Enabled, NextStatus, NextAttempts, NextRetired, NextRetiredAccepted, NextLookup, NextNeedsBump,
         NextFeeCapReached, NextMined, NextUsedAtBlock, NextUsedAt, NextError, NextFiller, NextNonce, Clock,
         AbandonedWith;
    WithStatusLogs(tx, NextStatus(e, tx), Clock(e));
  }

  lemma WithStatusLogs(tx: TxRecord, status: Status, now: int)
    requires LogsItsStatus(tx)
    ensures LogsItsStatus(WithStatus(tx, status, now))
  {
    var history := tx.history + [HistoryEntry(status, now)];
    if tx.status != status && |history| > MAX_HISTORY { LastOfTail(history, |history| - MAX_HISTORY); }
  }

  lemma LastOfTail(s: seq<HistoryEntry>, k: nat)
    requires k < |s|
    ensures |s[k..]| == |s| - k && s[k..][|s[k..]| - 1] == s[|s| - 1]
  {
  }

  lemma TakenByMark(attempts: seq<Attempt>, hash: Hash, now: int)
    requires hash in Hashes(attempts)
    ensures exists i :: 0 <= i < |attempts| && MarkAccepted(attempts, hash, now)[i].acceptedAt.Some?
  {
    var i :| 0 <= i < |attempts| && Hashes(attempts)[i] == hash;
    assert MarkAccepted(attempts, hash, now)[i] == AcceptOne(attempts[i], hash, now);
  }

  lemma QueuedStep(e: Event, tx: TxRecord)
    requires Shaped(tx) && Enabled(e, tx)
    ensures QueuedShape(Apply(e, tx))
  {
    hide Image, ActiveShape, MinedShape, FailedShape, WalkShape, Decide, ReceiptHashes, WalkHashes, WalkEnd, WalkStart;
    Columns(e, tx);
  }

  /** Which records an event can be written to. */
  lemma EnabledFacts(e: Event, tx: TxRecord)
    requires Enabled(e, tx)
    ensures tx.status == Queued || tx.status == Submitted || tx.status == Mined
    ensures NextStatus(e, tx) != tx.status ==>
              && !e.NonceAssigned? && !e.NonceGivenUp?
              && (e.Reorged? || e.BecameConfirmed? <==> tx.status == Mined)
              && (e.MinedSeen? || e.NonceUsedFailure? ==> tx.status == Submitted)
              && (e.DependencyFailure? ==> tx.status == Queued && tx.nonce.None?)
              && (!e.DependencyFailure? && tx.status == Queued ==> tx.attempts != [])
              && (e.RefusalFailed? || e.RefusalKept? ==> tx.lookupFrom.None?)
              && (e.RefusalFailed? ==> (tx.status == Queued || tx.status == Submitted) && (e.filler.Some? <==> tx.kind == Relay))
    ensures tx.status != Queued ==> NextNonce(e, tx) == tx.nonce && !e.FirstSigned?
    ensures tx.status == Mined ==> e.Reorged? || e.BecameConfirmed?
  {
    if HasHashEvent(e) { assert HasHash(tx, e.hash) ==> tx.attempts != []; }
  }

  predicate HasHashEvent(e: Event) { e.RefusalKept? || e.RefusalFailed? }

  /** Only signing changes how many attempts there are. */
  lemma AttemptsStay(e: Event, tx: TxRecord)
    requires Enabled(e, tx) && tx.attempts != [] && !e.NonceGivenUp?
    ensures NextAttempts(e, tx) != []
  {
  }

  /** Only signing and giving up change which hashes the attempts have; what a node answered stays with them. */
  lemma HashesStay(e: Event, tx: TxRecord)
    requires Enabled(e, tx) && !e.Replaced? && !e.FirstSigned? && !e.NonceGivenUp?
    ensures Hashes(NextAttempts(e, tx)) == Hashes(tx.attempts)
    ensures |NextAttempts(e, tx)| == |tx.attempts|
    ensures forall i :: 0 <= i < |tx.attempts| && tx.attempts[i].acceptedAt.Some? ==> NextAttempts(e, tx)[i].acceptedAt.Some?
  {
    hide Decide, ReceiptHashes, WalkHashes, WalkStart, WalkEnd, MayBeMined, HasHash, ReadyToFail, ClampFees;
  }

  /** A save that leaves a walk's index leaves the list the index is into. */
  lemma SameHashesWhileWalking(e: Event, tx: TxRecord)
    requires Enabled(e, tx) && (tx.lookupFrom.Some? ==> tx.status == Submitted)
    requires Apply(e, tx).lookupFrom.Some?
    ensures Hashes(Apply(e, tx).attempts) == Hashes(tx.attempts)
    ensures ReceiptHashes(Apply(e, tx)) == ReceiptHashes(tx) && WalkHashes(Apply(e, tx)) == WalkHashes(tx)
  {
    hide Image, Decide;
    Columns(e, tx);
    HashesStay(e, tx);
  }

  lemma ActiveStep(e: Event, tx: TxRecord)
    requires Shaped(tx) && Enabled(e, tx)
    ensures ActiveShape(Apply(e, tx))
  {
    hide Image, Enabled, MinedShape, WalkShape, FailedShape, NextAttempts;
    Columns(e, tx);
    EnabledFacts(e, tx);
    if tx.attempts != [] && !e.NonceGivenUp? { AttemptsStay(e, tx); }
  }

  lemma MinedStep(e: Event, tx: TxRecord)
    requires Shaped(tx) && Enabled(e, tx)
    ensures MinedShape(Apply(e, tx))
  {
    hide Image, Enabled, QueuedShape, ActiveShape, WalkShape, FailedShape;
    Columns(e, tx);
    EnabledFacts(e, tx);
    if e.MinedSeen? && HasHash(tx, e.receipt.hash) {
      TakenByMark(tx.attempts, e.receipt.hash, e.now);
    }
  }

  lemma FailedStep(e: Event, tx: TxRecord)
    requires Shaped(tx) && Enabled(e, tx)
    ensures FailedShape(Apply(e, tx))
  {
    hide Image, Enabled, MinedShape, WalkShape;
    Columns(e, tx);
    EnabledFacts(e, tx);
  }

  lemma WalkStep(e: Event, tx: TxRecord)
    requires Shaped(tx) && Enabled(e, tx)
    ensures WalkShape(Apply(e, tx))
  {
    hide Image, QueuedShape, ActiveShape, MinedShape, FailedShape, Decide;
    Columns(e, tx);
    EnabledFacts(e, tx);
    if NextLookup(e, tx).Some? {
      SameHashesWhileWalking(e, tx);
    }
  }

  lemma GoodStep(e: Event, tx: TxRecord)
    requires Good(tx) && Enabled(e, tx)
    ensures Good(Apply(e, tx))
  {
    hide Enabled, Image;
    hide QueuedShape, ActiveShape, MinedShape, FailedShape, WalkShape, Bounded, Backed, LogsItsStatus;
    BoundedStep(e, tx);
    BackedStep(e, tx);
    QueuedStep(e, tx);
    ActiveStep(e, tx);
    MinedStep(e, tx);
    FailedStep(e, tx);
    WalkStep(e, tx);
    LogsStep(e, tx);
  }
}
