/** Whole lives of one transaction record: what no sequence of writes forgets. */
module RelayerRuns {
  import opened Wrappers
  import opened ReplacementFees
  import opened RelayerRecords
  import opened RelayerEvents
  import opened RelayerInvariants

  /** Every image a record has had, and the write between each and the next. Any number of signer runs and sweeps may
      have made them; a write is conditional on the version read, so each starts from the image before it. */
  ghost predicate IsRun(images: seq<TxRecord>, events: seq<Event>) {
    && |images| == |events| + 1 && Initial(images[0])
    && forall i :: 0 <= i < |events| ==> Enabled(events[i], images[i]) && images[i + 1] == Apply(events[i], images[i])
  }

  /** The size bounds, the bytes behind every unrefused signature and the shape of each status hold in every image. */
  lemma {:induction false} EveryImageIsGood(images: seq<TxRecord>, events: seq<Event>, i: nat)
    requires IsRun(images, events) && i < |images|
    ensures Good(images[i])
    decreases i
  {
    hide Good, Enabled, Apply;
    if i == 0 {
      InitialIsGood(images[0]);
    } else {
      EveryImageIsGood(images, events, i - 1);
      assert Enabled(events[i - 1], images[i - 1]) && images[i] == Apply(events[i - 1], images[i - 1]);
      GoodStep(events[i - 1], images[i - 1]);
    }
  }

  // No hash is forgotten

  function HashSet(hashes: seq<Hash>): set<Hash> { set h | h in hashes }

  /** The hashes a record can still be asked about. */
  function Known(tx: TxRecord): set<Hash> { HashSet(Hashes(tx.attempts)) + HashSet(tx.retiredHashes) }

  /** The hashes of every signature any image up to the n-th held at the nonce the n-th has. */
  function EverSaved(images: seq<TxRecord>, n: nat): set<Hash>
    requires n < |images|
  {
    (if n > 0 && images[n].nonce == images[n - 1].nonce then EverSaved(images, n - 1) else {})
    + HashSet(Hashes(images[n].attempts))
  }

  lemma HashSetOfConcat(a: seq<Attempt>, b: seq<Attempt>)
    ensures HashSet(Hashes(a + b)) == HashSet(Hashes(a)) + HashSet(Hashes(b))
  {
    assert Hashes(a + b) == Hashes(a) + Hashes(b);
  }

  lemma HashSetOfRemoved(a: seq<Attempt>, i: nat)
    requires i < |a|
    ensures HashSet(Hashes(a)) == HashSet(Hashes(RemoveAt(a, i))) + {a[i].hash}
  {
    assert a == a[..i] + ([a[i]] + a[i + 1..]);
    HashSetOfConcat(a[..i], [a[i]] + a[i + 1..]);
    HashSetOfConcat([a[i]], a[i + 1..]);
    HashSetOfConcat(a[..i], a[i + 1..]);
    assert Hashes([a[i]]) == [a[i].hash];
  }

  /** The hash of a dropped attempt is retired, unless a twin or an earlier drop still has it. */
  lemma DroppingKeepsHashes(tx: TxRecord)
    requires Backed(tx.attempts)
    ensures HashSet(Hashes(Kept(tx))) + HashSet(RetiredWith(tx)) == Known(tx)
  {
    hide Dropped, Hashes, RemoveAt;
    if Dropped(tx).Some? { HashSetOfRemoved(tx.attempts, Dropped(tx).value); }
  }

  lemma StrippingKeepsHashes(attempts: seq<Attempt>)
    requires Backed(attempts)
    ensures Hashes(MakeRoom(attempts)) == Hashes(attempts)
  {
    StripHolds(attempts, Signed(attempts) + 1 - MAX_SIGNED_ATTEMPTS);
  }

  lemma HashesOfAppend(attempts: seq<Attempt>, a: Attempt)
    ensures HashSet(Hashes(attempts + [a])) == HashSet(Hashes(attempts)) + {a.hash}
  {
    assert Hashes(attempts + [a]) == Hashes(attempts) + [a.hash];
  }

  /** A write at the same nonce forgets no hash and adds only the signature it makes. */
  lemma KnownStep(e: Event, tx: TxRecord)
    requires Good(tx) && Enabled(e, tx)
    ensures var n := Apply(e, tx);
            && Known(n) == (if n.nonce == tx.nonce then Known(tx) else {}) + HashSet(Hashes(n.attempts))
  {
    hide Enabled, Apply, Good, NextAttempts, Known;
    NonceAndHashes(e, tx);
    if e.Replaced? {
      ReplacedKnown(e, tx);
    } else if e.FirstSigned? || e.NonceGivenUp? || e.NonceAssigned? {
      QueuedKnown(e, tx);
    } else {
      HashesStay(e, tx);
      SameKnownHashes(Apply(e, tx), tx);
    }
  }

  /** The columns that hold hashes and the nonce they are at. */
  lemma NonceAndHashes(e: Event, tx: TxRecord)
    requires Enabled(e, tx)
    ensures var n := Apply(e, tx);
            && n.nonce == NextNonce(e, tx) && n.attempts == NextAttempts(e, tx) && n.retiredHashes == NextRetired(e, tx)
            && n.retiredAccepted == NextRetiredAccepted(e, tx)
  {
    hide Enabled, NextAttempts, NextNonce, NextRetired, NextRetiredAccepted, WithStatus;
  }

  lemma SameKnownHashes(a: TxRecord, b: TxRecord)
    requires Hashes(a.attempts) == Hashes(b.attempts) && a.retiredHashes == b.retiredHashes
    ensures Known(a) == Known(b) == Known(b) + HashSet(Hashes(a.attempts))
  {
  }

  lemma ReplacedKnown(e: Event, tx: TxRecord)
    requires Good(tx) && e.Replaced? && Enabled(e, tx)
    ensures Known(Apply(e, tx)) == Known(tx) + HashSet(Hashes(Apply(e, tx).attempts))
    ensures Apply(e, tx).nonce == tx.nonce
  {
    hide Enabled, Apply, Shaped, LogsItsStatus, Bounded, Kept, RetiredWith, MakeRoom, Hashes;
    NonceAndHashes(e, tx);
    KeptHolds(tx);
    DroppingKeepsHashes(tx);
    StrippingKeepsHashes(Kept(tx));
    HashesOfAppend(MakeRoom(Kept(tx)), e.attempt);
  }

  lemma QueuedKnown(e: Event, tx: TxRecord)
    requires Good(tx) && (e.FirstSigned? || e.NonceGivenUp? || e.NonceAssigned?) && Enabled(e, tx)
    ensures var n := Apply(e, tx);
            Known(n) == (if n.nonce == tx.nonce then Known(tx) else {}) + HashSet(Hashes(n.attempts))
  {
    hide Apply, LogsItsStatus, Bounded, ActiveShape, MinedShape, FailedShape, WalkShape, ClampFees;
    NonceAndHashes(e, tx);
  }

  /** In every image, the stored attempts and retired hashes are together exactly the hashes of all signatures ever
      saved at the current nonce: through refusals, stripped bytes, drops, revivals, replacements, mining and reorgs. */
  lemma {:induction false} NoHashIsForgotten(images: seq<TxRecord>, events: seq<Event>, n: nat)
    requires IsRun(images, events) && n < |images|
    ensures Known(images[n]) == EverSaved(images, n)
    decreases n
  {
    hide Enabled, Apply, Good, Known;
    if n == 0 {
      InitialKnows(images[0]);
      assert EverSaved(images, 0) == HashSet(Hashes(images[0].attempts));
    } else {
      NoHashIsForgotten(images, events, n - 1);
      EveryImageIsGood(images, events, n - 1);
      assert Enabled(events[n - 1], images[n - 1]) && images[n] == Apply(events[n - 1], images[n - 1]);
      KnownStep(events[n - 1], images[n - 1]);
    }
  }

  lemma InitialKnows(tx: TxRecord)
    requires Initial(tx)
    ensures Known(tx) == HashSet(Hashes(tx.attempts))
  {
  }

  // No acceptance is forgotten

  lemma DroppingKeepsTaken(tx: TxRecord)
    requires Taken(tx)
    ensures RetiredAcceptedWith(tx) || exists k :: 0 <= k < |Kept(tx)| && Kept(tx)[k].acceptedAt.Some?
  {
    if !tx.retiredAccepted {
      var j :| 0 <= j < |tx.attempts| && tx.attempts[j].acceptedAt.Some?;
      if Dropped(tx).None? {
        assert Kept(tx)[j] == tx.attempts[j];
      } else if j != Dropped(tx).value {
        assert Kept(tx)[if j < Dropped(tx).value then j else j - 1] == tx.attempts[j];
      }
    }
  }

  lemma TakenStep(e: Event, tx: TxRecord)
    requires Good(tx) && Enabled(e, tx) && Taken(tx)
    ensures Taken(Apply(e, tx)) && !e.RefusalFailed?
  {
    hide Enabled, Apply, Good, NextAttempts, NextRetiredAccepted, MayBeMined;
    NonceAndHashes(e, tx);
    NeverRefused(e, tx);
    if e.Replaced? {
      ReplacedKeepsTaken(e, tx);
    } else {
      HashesStay(e, tx);
      RetiredAcceptedStays(e, tx);
    }
  }

  /** What a node took is not a queued transaction's first signature, and cannot be failed by a refusal. */
  lemma NeverRefused(e: Event, tx: TxRecord)
    requires Good(tx) && Enabled(e, tx) && Taken(tx)
    ensures !e.RefusalFailed? && !e.FirstSigned? && !e.NonceGivenUp?
  {
    hide LogsItsStatus, Bounded, ActiveShape, MinedShape, FailedShape, WalkShape, ClampFees, Decide, ReadyToFail,
         ReceiptHashes, WalkHashes, WalkStart, WalkEnd;
  }

  lemma RetiredAcceptedStays(e: Event, tx: TxRecord)
    requires !e.Replaced?
    ensures tx.retiredAccepted ==> NextRetiredAccepted(e, tx)
  {
  }

  lemma ReplacedKeepsTaken(e: Event, tx: TxRecord)
    requires Good(tx) && e.Replaced? && Enabled(e, tx) && Taken(tx)
    ensures Taken(Apply(e, tx))
  {
    hide Enabled, Apply, Shaped, LogsItsStatus, Bounded, Kept, RetiredAcceptedWith, StripOldest;
    NonceAndHashes(e, tx);
    DroppingKeepsTaken(tx);
    KeptHolds(tx);
    StripHolds(Kept(tx), Signed(Kept(tx)) + 1 - MAX_SIGNED_ATTEMPTS);
    if !RetiredAcceptedWith(tx) {
      var k :| 0 <= k < |Kept(tx)| && Kept(tx)[k].acceptedAt.Some?;
      assert NextAttempts(e, tx)[k].acceptedAt.Some?;
    }
  }

  /** Once a save records that a node took any signature, every later image remembers it: whatever hash is refused then,
      the transaction may be mined, so no refusal fails it. If it fails at all, the nonce was found used. */
  lemma {:induction false} TakenIsForGood(images: seq<TxRecord>, events: seq<Event>, i: nat, j: nat)
    requires IsRun(images, events) && i <= j < |images| && Taken(images[i])
    ensures Taken(images[j]) && forall hash :: MayBeMined(images[j], hash)
    ensures forall k :: i <= k < j ==> !events[k].RefusalFailed?
    ensures images[j].status == Failed && images[i].status != Failed ==> images[j].error == Some(NonceUsed)
    decreases j - i
  {
    hide Enabled, Apply, Good;
    if i < j {
      TakenIsForGood(images, events, i, j - 1);
      EveryImageIsGood(images, events, j - 1);
      var e, tx := events[j - 1], images[j - 1];
      assert Enabled(e, tx) && images[j] == Apply(e, tx);
      TakenStep(e, tx);
      FailureHasCause(e, tx);
    }
  }

  lemma FailureHasCause(e: Event, tx: TxRecord)
    requires Good(tx) && Enabled(e, tx)
    ensures tx.status != Failed
    ensures Apply(e, tx).status == Failed ==>
              || (e.RefusalFailed? && Apply(e, tx).error == Some(Refused(e.reason)))
              || (e.NonceUsedFailure? && Apply(e, tx).error == Some(NonceUsed))
              || (e.DependencyFailure? && tx.attempts == [] && !tx.retiredAccepted)
  {
    hide Image, Bounded, LogsItsStatus, ActiveShape, MinedShape, FailedShape, WalkShape;
    Columns(e, tx);
    EnabledFacts(e, tx);
  }

  /** The other direction: a transaction a refusal failed was never recorded as taken, and every signature it holds was
      refused. */
  lemma RefusedMeansNeverTaken(images: seq<TxRecord>, events: seq<Event>, j: nat)
    requires IsRun(images, events) && j < |events| && events[j].RefusalFailed?
    ensures forall i :: 0 <= i <= j ==> !Taken(images[i])
    ensures var failed := images[j + 1];
            forall k :: 0 <= k < |failed.attempts| ==> failed.attempts[k].rejected.Some?
  {
    hide Good, Image;
    forall i | 0 <= i <= j ensures !Taken(images[i]) {
      if Taken(images[i]) { TakenIsForGood(images, events, i, j + 1); }
    }
    assert Enabled(events[j], images[j]) && images[j + 1] == Apply(events[j], images[j]);
    Columns(events[j], images[j]);
  }
}
