/** What the sweeper signs in place of a stuck transaction (services/relayer/src/sweeper.ts, replace). */
module RelayerReplacement {
  import opened Wrappers
  import opened ReplacementFees
  import opened RelayerRecords
  import opened RelayerEvents
  import opened RelayerInvariants
  import opened RelayerRuns

  lemma BumpIsUsable(previous: Fees, estimate: Fees, cap: Fees)
    requires BumpFees(previous, estimate, cap, DEFAULT_PRICE_BUMP_PERCENT).Bumped?
    ensures Usable(previous, BumpFees(previous, estimate, cap, DEFAULT_PRICE_BUMP_PERCENT).fees, cap,
                   DEFAULT_PRICE_BUMP_PERCENT)
  {
  }

  /** Also when it climbs from a refused signature, the bump is one the node takes in place of the live one, and it
      raises a fee over the latest signature. */
  lemma BumpLiveIsUsable(attempts: seq<Attempt>, live: nat, estimate: Fees, cap: Fees)
    requires live < |attempts| && BumpLive(attempts, live, estimate, cap).Bumped?
    ensures var fees := BumpLive(attempts, live, estimate, cap).fees;
            && Usable(attempts[live].fees, fees, cap, DEFAULT_PRICE_BUMP_PERCENT)
            && Raises(fees, attempts[|attempts| - 1].fees)
  {
    hide BumpFees;
    var latest := |attempts| - 1;
    var first := BumpFees(attempts[live].fees, estimate, cap, DEFAULT_PRICE_BUMP_PERCENT);
    var fees := BumpLive(attempts, live, estimate, cap).fees;
    BumpIsUsable(attempts[live].fees, estimate, cap);
    if latest != live && !Raises(first.fees, attempts[latest].fees) {
      BumpIsUsable(attempts[latest].fees, estimate, cap);
      AcceptanceIsUpwardClosed(attempts[live].fees, first.fees, fees, DEFAULT_PRICE_BUMP_PERCENT);
    }
  }

  /** Every signature replace makes is within the policy cap with its tip within its fee. With a live signature it is an
      accepted replacement of that one and raises a fee over the latest; with none, no refusal that covers the fees wanted
      now still has bytes that could be sent instead. */
  lemma SignedReplacementIsSound(tx: TxRecord, estimate: Fees, cap: Fees)
    requires Decide(tx, estimate, cap).Sign?
    ensures var fees := Decide(tx, estimate, cap).fees;
            && WellFormed(fees) && Under(fees, cap)
            && match LiveIndex(tx.attempts)
               case Some(live) =>
                 && IsAcceptedReplacement(tx.attempts[live].fees, fees, DEFAULT_PRICE_BUMP_PERCENT)
                 && Raises(fees, tx.attempts[|tx.attempts| - 1].fees)
               case None =>
                 forall i :: 0 <= i < |tx.attempts| && Covers(tx.attempts[i], ClampFees(estimate, cap), cap) ==>
                   tx.attempts[i].raw.Stripped?
  {
    hide BumpLive, BumpFees;
    var live := LiveIndex(tx.attempts);
    if live.Some? {
      BumpLiveIsUsable(tx.attempts, live.value, estimate, cap);
    } else {
      var blocking := Blocking(tx.attempts, ClampFees(estimate, cap), cap, |tx.attempts|);
      forall i: nat | i < |tx.attempts| && Covers(tx.attempts[i], ClampFees(estimate, cap), cap)
        ensures tx.attempts[i].raw.Stripped?
      {
        assert i in blocking;
      }
    }
  }

  /** The order of refusedAtOrAbove: nothing later in it has higher fees. */
  predicate HighestFirst(attempts: seq<Attempt>, order: seq<nat>)
    requires forall k :: 0 <= k < |order| ==> order[k] < |attempts|
  {
    forall a, b :: 0 <= a < b < |order| ==> !Higher(attempts[order[b]].fees, attempts[order[a]].fees)
  }

  lemma {:induction false} InsertKeepsHighestFirst(attempts: seq<Attempt>, order: seq<nat>, i: nat)
    requires i < |attempts| && forall k :: 0 <= k < |order| ==> order[k] < |attempts|
    requires HighestFirst(attempts, order)
    ensures HighestFirst(attempts, InsertByFees(attempts, order, i))
  {
    if order != [] {
      var front, last := order[..|order| - 1], order[|order| - 1];
      assert order == front + [last];
      if Higher(attempts[i].fees, attempts[last].fees) {
        InsertKeepsHighestFirst(attempts, front, i);
        var placed := InsertByFees(attempts, front, i);
        forall a | 0 <= a < |placed| ensures !Higher(attempts[last].fees, attempts[placed[a]].fees) {
          assert placed[a] in placed;
          if placed[a] != i {
            var x :| 0 <= x < |front| && front[x] == placed[a];
            assert order[x] == placed[a];
          }
        }
      }
    }
  }

  lemma NoOrder(attempts: seq<Attempt>)
    ensures HighestFirst(attempts, [])
  {
  }

  lemma {:induction false} BlockingIsHighestFirst(attempts: seq<Attempt>, fees: Fees, cap: Fees, n: nat)
    requires n <= |attempts|
    ensures HighestFirst(attempts, Blocking(attempts, fees, cap, n))
  {
    hide Covers, InsertByFees, HighestFirst;
    if n == 0 {
      NoOrder(attempts);
    } else {
      BlockingIsHighestFirst(attempts, fees, cap, n - 1);
      InsertKeepsHighestFirst(attempts, Blocking(attempts, fees, cap, n - 1), n - 1);
    }
  }

  lemma {:induction false} FirstIsHighest(attempts: seq<Attempt>, order: seq<nat>)
    requires forall k :: 0 <= k < |order| ==> order[k] < |attempts|
    requires HighestFirst(attempts, order) && FirstWithBytes(attempts, order).Some?
    ensures var top := FirstWithBytes(attempts, order).value;
            forall j :: j in order && attempts[j].raw.Bytes? ==> !Higher(attempts[j].fees, attempts[top].fees)
  {
    if attempts[order[0]].raw.Bytes? {
      forall j | j in order && attempts[j].raw.Bytes? ensures !Higher(attempts[j].fees, attempts[order[0]].fees) {
        var k :| 0 <= k < |order| && order[k] == j;
        if k > 0 { assert !Higher(attempts[order[k]].fees, attempts[order[0]].fees); }
      }
    } else {
      forall a, b | 0 <= a < b < |order[1..]|
        ensures !Higher(attempts[order[1..][b]].fees, attempts[order[1..][a]].fees)
      {
        assert order[1..][a] == order[a + 1] && order[1..][b] == order[b + 1];
      }
      FirstIsHighest(attempts, order[1..]);
    }
  }

  /** When Decide picks stored bytes instead, nothing is live, they are a refused signature's that covers the fees wanted
      now, and no other such signature with bytes has higher fees. */
  lemma StoredBytesAreTheHighestCover(tx: TxRecord, estimate: Fees, cap: Fees)
    requires Decide(tx, estimate, cap).SendStored?
    ensures var i, fees := Decide(tx, estimate, cap).index, ClampFees(estimate, cap);
            && i < |tx.attempts| && tx.attempts[i].raw.Bytes? && Covers(tx.attempts[i], fees, cap)
            && (forall j :: 0 <= j < |tx.attempts| ==> tx.attempts[j].rejected.Some?)
            && forall j :: 0 <= j < |tx.attempts| && Covers(tx.attempts[j], fees, cap) && tx.attempts[j].raw.Bytes? ==>
                 !Higher(tx.attempts[j].fees, tx.attempts[i].fees)
  {
    var fees := ClampFees(estimate, cap);
    var blocking := Blocking(tx.attempts, fees, cap, |tx.attempts|);
    BlockingIsHighestFirst(tx.attempts, fees, cap, |tx.attempts|);
    FirstIsHighest(tx.attempts, blocking);
    forall j: nat | j < |tx.attempts| && Covers(tx.attempts[j], fees, cap) ensures j in blocking {}
  }

  // The whole decision, by what is compared

  /** A refused signature at or above the fees wanted now that still stands against them: where they are at the cap, any;
      below it, one whose own fees were below the cap as well. */
  predicate StandsAgainst(a: Attempt, wanted: Fees, cap: Fees) {
    && wanted.maxFee <= a.fees.maxFee && wanted.tip <= a.fees.tip
    && (wanted.maxFee < cap.maxFee && wanted.tip < cap.tip ==> a.fees.maxFee < cap.maxFee && a.fees.tip < cap.tip)
  }

  /** With every signature refused: stored bytes go out exactly when one that stands against the wanted fees has bytes. */
  lemma StoredExactly(tx: TxRecord, estimate: Fees, cap: Fees)
    requires forall i :: 0 <= i < |tx.attempts| ==> tx.attempts[i].rejected.Some?
    ensures Decide(tx, estimate, cap).SendStored?
       <==> exists i :: 0 <= i < |tx.attempts| && tx.attempts[i].raw.Bytes?
                        && StandsAgainst(tx.attempts[i], ClampFees(estimate, cap), cap)
    ensures Decide(tx, estimate, cap).SendStored? ==>
              StandsAgainst(tx.attempts[Decide(tx, estimate, cap).index], ClampFees(estimate, cap), cap)
  {
    hide BumpLive;
    var fees := ClampFees(estimate, cap);
    var blocking := Blocking(tx.attempts, fees, cap, |tx.attempts|);
    forall i: nat | i < |tx.attempts|
      ensures i in blocking <==> StandsAgainst(tx.attempts[i], fees, cap)
    {
      assert i in blocking <==> Covers(tx.attempts[i], fees, cap);
    }
    var top := FirstWithBytes(tx.attempts, blocking);
    if top.Some? { assert top.value in blocking; }
    if i: nat :| i < |tx.attempts| && tx.attempts[i].raw.Bytes? && StandsAgainst(tx.attempts[i], fees, cap) {
      assert i in blocking;
    }
  }

  /** What is signed when none has: the wanted fees, or, where only stripped ones stand against them, the highest of those
      again, as far as the cap goes. */
  lemma SignedExactly(tx: TxRecord, estimate: Fees, cap: Fees)
    requires forall i :: 0 <= i < |tx.attempts| ==> tx.attempts[i].rejected.Some?
    requires Decide(tx, estimate, cap).Sign?
    ensures var fees, wanted := Decide(tx, estimate, cap).fees, ClampFees(estimate, cap);
            if forall i :: 0 <= i < |tx.attempts| ==> !StandsAgainst(tx.attempts[i], wanted, cap) then fees == wanted
            else exists i :: 0 <= i < |tx.attempts| && StandsAgainst(tx.attempts[i], wanted, cap)
                             && IsHighest(tx.attempts, i, wanted, cap) && fees == ClampFees(tx.attempts[i].fees, cap)
  {
    hide WithRoom, BumpLive, ClampFees;
    var fees := ClampFees(estimate, cap);
    WithinTheCap(estimate, cap);
    var blocking := Blocking(tx.attempts, fees, cap, |tx.attempts|);
    BlockingIsHighestFirst(tx.attempts, fees, cap, |tx.attempts|);
    forall i: nat | i < |tx.attempts| ensures i in blocking <==> StandsAgainst(tx.attempts[i], fees, cap) {
      assert i in blocking <==> Covers(tx.attempts[i], fees, cap);
    }
    RoomSigns(tx, if blocking == [] then fees else ClampFees(tx.attempts[blocking[0]].fees, cap));
    if blocking == [] {
      forall i | 0 <= i < |tx.attempts| ensures !StandsAgainst(tx.attempts[i], fees, cap) { assert i !in blocking; }
    } else {
      assert blocking[0] in blocking;
      forall j: nat | j < |tx.attempts| && StandsAgainst(tx.attempts[j], fees, cap)
        ensures !Higher(tx.attempts[j].fees, tx.attempts[blocking[0]].fees)
      {
        var k :| 0 <= k < |blocking| && blocking[k] == j;
        if k > 0 { assert !Higher(tx.attempts[blocking[k]].fees, tx.attempts[blocking[0]].fees); }
      }
    }
  }

  predicate IsHighest(attempts: seq<Attempt>, i: nat, wanted: Fees, cap: Fees)
    requires i < |attempts|
  {
    forall j :: 0 <= j < |attempts| && StandsAgainst(attempts[j], wanted, cap) ==> !Higher(attempts[j].fees, attempts[i].fees)
  }

  lemma WithinTheCap(estimate: Fees, cap: Fees)
    ensures Under(ClampFees(estimate, cap), cap)
  {
  }

  lemma RoomSigns(tx: TxRecord, fees: Fees)
    ensures WithRoom(tx, fees).Sign? ==> WithRoom(tx, fees) == Sign(fees)
  {
  }

  /** With every signature refused, nothing but full stores keeps a signature from going out. */
  lemma RefusedIsSentOrFull(tx: TxRecord, estimate: Fees, cap: Fees)
    requires forall i :: 0 <= i < |tx.attempts| ==> tx.attempts[i].rejected.Some?
    ensures !Decide(tx, estimate, cap).FlagFeeCap?
    ensures Decide(tx, estimate, cap).FlagRetiredHashesFull? ==>
              |tx.attempts| >= MAX_STORED_ATTEMPTS && |tx.retiredHashes| >= MAX_RETIRED_HASHES
  {
    hide BumpLive;
  }

  /** With a live signature, replace gives up for the fee cap only with a cause: ten unrefused ones, 64 stored and none
      refused, or no pair under the cap that a node would take in place of the live signature, or of the latest where the
      node refused as much already. */
  lemma FeeCapHasCause(tx: TxRecord, estimate: Fees, cap: Fees)
    requires LiveIndex(tx.attempts).Some? && forall i :: 0 <= i < |tx.attempts| ==> WellFormed(tx.attempts[i].fees)
    requires Decide(tx, estimate, cap).FlagFeeCap?
    ensures || Unrefused(tx.attempts) >= MAX_ATTEMPTS
            || (|tx.attempts| >= MAX_STORED_ATTEMPTS && forall i :: 0 <= i < |tx.attempts| ==> tx.attempts[i].rejected.None?)
            || NoneUsable(tx.attempts[LiveIndex(tx.attempts).value].fees, cap)
            || (tx.attempts[|tx.attempts| - 1].rejected.Some? && NoneUsable(tx.attempts[|tx.attempts| - 1].fees, cap))
  {
    hide BumpFees, Usable;
    var live, latest := LiveIndex(tx.attempts).value, |tx.attempts| - 1;
    BumpFeesIsExact(tx.attempts[live].fees, estimate, cap, DEFAULT_PRICE_BUMP_PERCENT);
    BumpFeesIsExact(tx.attempts[latest].fees, estimate, cap, DEFAULT_PRICE_BUMP_PERCENT);
  }

  ghost predicate NoneUsable(previous: Fees, cap: Fees) {
    forall f :: !Usable(previous, f, cap, DEFAULT_PRICE_BUMP_PERCENT)
  }

  /** Without such a cause, a stuck live signature is replaced, unless the hashes of dropped ones have no room. */
  lemma LiveIsReplaced(tx: TxRecord, estimate: Fees, cap: Fees)
    requires LiveIndex(tx.attempts).Some? && !Decide(tx, estimate, cap).FlagFeeCap?
    ensures Decide(tx, estimate, cap).Sign?
         || (|tx.attempts| >= MAX_STORED_ATTEMPTS && |tx.retiredHashes| >= MAX_RETIRED_HASHES)
  {
    hide BumpLive;
  }

  // Fees over a whole run

  predicate AllUnder(attempts: seq<Attempt>, cap: Fees) {
    forall i :: 0 <= i < |attempts| ==> WellFormed(attempts[i].fees) && Under(attempts[i].fees, cap)
  }

  /** Every signing in the run was done under this policy cap. */
  predicate OnePolicy(events: seq<Event>, cap: Fees) {
    forall i :: 0 <= i < |events| ==>
      && (events[i].FirstSigned? ==> events[i].cap == cap)
      && (events[i].Replaced? ==> events[i].cap == cap)
  }

  lemma KeptIsUnder(tx: TxRecord, cap: Fees)
    requires AllUnder(tx.attempts, cap)
    ensures AllUnder(Kept(tx), cap)
  {
    hide DropIndex;
    if Dropped(tx).Some? {
      var i, kept := Dropped(tx).value, Kept(tx);
      forall k | 0 <= k < |kept| ensures WellFormed(kept[k].fees) && Under(kept[k].fees, cap) {
        assert kept[k] == tx.attempts[if k < i then k else k + 1];
      }
    }
  }

  lemma RoomIsUnder(attempts: seq<Attempt>, cap: Fees)
    requires Backed(attempts) && AllUnder(attempts, cap)
    ensures AllUnder(MakeRoom(attempts), cap)
  {
    StripHolds(attempts, Signed(attempts) + 1 - MAX_SIGNED_ATTEMPTS);
  }

  lemma ReplacedIsUnder(e: Event, tx: TxRecord)
    requires e.Replaced? && Backed(tx.attempts) && AllUnder(tx.attempts, e.cap) && Enabled(e, tx)
    ensures AllUnder(NextAttempts(e, tx), e.cap)
  {
    hide Decide, MakeRoom, Kept;
    SignedReplacementIsSound(tx, e.estimate, e.cap);
    KeptHolds(tx);
    KeptIsUnder(tx, e.cap);
    RoomIsUnder(Kept(tx), e.cap);
  }

  lemma AllUnderStep(e: Event, tx: TxRecord, cap: Fees)
    requires Backed(tx.attempts) && AllUnder(tx.attempts, cap) && Enabled(e, tx)
    requires (e.FirstSigned? ==> e.cap == cap) && (e.Replaced? ==> e.cap == cap)
    ensures AllUnder(Apply(e, tx).attempts, cap)
  {
    hide Image, Decide, Backed, MakeRoom, Kept;
    Columns(e, tx);
    if e.Replaced? {
      ReplacedIsUnder(e, tx);
    }
  }

  /** Under one policy, every signature a record ever holds is within the policy cap with its tip within its fee. */
  lemma {:induction false} EverySignatureIsUnderPolicy(images: seq<TxRecord>, events: seq<Event>, cap: Fees, n: nat)
    requires IsRun(images, events) && OnePolicy(events, cap) && n < |images|
    ensures AllUnder(images[n].attempts, cap)
    decreases n
  {
    hide Good, Enabled, Apply, AllUnder;
    if n == 0 {
      NothingSignedYet(images[0], cap);
    } else {
      EverySignatureIsUnderPolicy(images, events, cap, n - 1);
      EveryImageIsGood(images, events, n - 1);
      assert Enabled(events[n - 1], images[n - 1]) && images[n] == Apply(events[n - 1], images[n - 1]);
      GoodIsBacked(images[n - 1]);
      AllUnderStep(events[n - 1], images[n - 1], cap);
    }
  }

  lemma NothingSignedYet(tx: TxRecord, cap: Fees)
    requires Initial(tx)
    ensures AllUnder(tx.attempts, cap)
  {
  }

  lemma GoodIsBacked(tx: TxRecord)
    requires Good(tx)
    ensures Backed(tx.attempts)
  {
  }
}
