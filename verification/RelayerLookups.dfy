/** Failing a transaction because its nonce was used: the writes of one all-URL walk say, together, that it asked for
    every hash the transaction ever had at that nonce, however many sweeps the walk was cut into. That each of them was
    denied is shown in RelayerWalks. */
module RelayerLookups {
  import opened Wrappers
  import opened RelayerRecords
  import opened RelayerEvents
  import opened RelayerInvariants
  import opened RelayerRuns

  predicate Walking(tx: TxRecord) { tx.lookupFrom.Some? && tx.lookupFrom.value.walk == AllUrls }

  /** What the walk in progress after n writes has asked so far, by the writes that stopped it. */
  function Progress(images: seq<TxRecord>, events: seq<Event>, n: nat): seq<Hash>
    requires n < |images| == |events| + 1
  {
    if n == 0 || !Walking(images[n]) then []
    else
      Progress(images, events, n - 1)
      + if events[n - 1].WalkStopped? && events[n - 1].walk == AllUrls then events[n - 1].asked else []
  }

  lemma ProgressStep(e: Event, tx: TxRecord, before: seq<Hash>)
    requires Good(tx) && Enabled(e, tx)
    requires before == if Walking(tx) then WalkHashes(tx)[..WalkStart(tx, AllUrls)] else []
    ensures var n := Apply(e, tx);
            Walking(n) ==>
              && WalkHashes(n) == WalkHashes(tx) && Known(n) == Known(tx)
              && WalkStart(n, AllUrls) <= |WalkHashes(n)|
              && before + (if e.WalkStopped? && e.walk == AllUrls then e.asked else [])
                 == WalkHashes(n)[..WalkStart(n, AllUrls)]
  {
    hide Image, Decide, Bounded, LogsItsStatus, ActiveShape, MinedShape, FailedShape, QueuedShape, WalkHashes,
         ReceiptHashes, Known;
    Columns(e, tx);
    if NextLookup(e, tx).Some? {
      SameHashesWhileWalking(e, tx);
      SameKnown(Apply(e, tx), tx);
      if e.WalkStopped? && e.walk == AllUrls {
        var w, from := WalkHashes(tx), WalkStart(tx, AllUrls);
        assert w[..from] + w[from..e.index] == w[..e.index];
      }
    }
  }

  lemma SameKnown(a: TxRecord, b: TxRecord)
    requires Hashes(a.attempts) == Hashes(b.attempts) && ReceiptHashes(a) == ReceiptHashes(b)
    ensures Known(a) == Known(b)
  {
    KnownAreAsked(a);
    KnownAreAsked(b);
  }

  /** The walk's list holds exactly the known hashes. */
  lemma KnownAreAsked(tx: TxRecord)
    ensures HashSet(ReceiptHashes(tx)) == Known(tx)
  {
    ReverseHolds(Hashes(tx.attempts));
    ReverseHolds(tx.retiredHashes);
  }

  lemma ReverseHolds(s: seq<Hash>)
    ensures HashSet(Reverse(s)) == HashSet(s)
  {
    forall h | h in s ensures h in Reverse(s) {
      var i :| 0 <= i < |s| && s[i] == h;
      assert Reverse(s)[|s| - 1 - i] == h;
    }
  }

  /** A saved walk index refers to the list the walk began with: what was asked so far is its first `index` hashes. */
  lemma {:induction false} ProgressIsPrefix(images: seq<TxRecord>, events: seq<Event>, n: nat)
    requires IsRun(images, events) && n < |images|
    ensures WalkStart(images[n], AllUrls) <= |WalkHashes(images[n])|
    ensures Progress(images, events, n)
         == if Walking(images[n]) then WalkHashes(images[n])[..WalkStart(images[n], AllUrls)] else []
    decreases n
  {
    hide Enabled, Apply, Bounded, Backed, LogsItsStatus, ActiveShape, MinedShape, FailedShape, QueuedShape, WalkHashes;
    EveryImageIsGood(images, events, n);
    if n > 0 {
      ProgressIsPrefix(images, events, n - 1);
      EveryImageIsGood(images, events, n - 1);
      assert Enabled(events[n - 1], images[n - 1]) && images[n] == Apply(events[n - 1], images[n - 1]);
      ProgressStep(events[n - 1], images[n - 1], Progress(images, events, n - 1));
    }
  }

  /** The writes of one walk that ends in a failure cover the list from its start to its end, and a second time the stored
      attempts if it was resumed: every hash ever saved at the nonce, after the nonce had read as used for the confirmation
      depth and the minimum age. */
  lemma NonceUsedOnlyAfterAFullWalk(images: seq<TxRecord>, events: seq<Event>, n: nat)
    requires IsRun(images, events) && n < |events| && events[n].NonceUsedFailure?
    ensures var tx, e := images[n], events[n];
            var walked := Progress(images, events, n) + e.asked;
            && ReadyToFail(tx, e.head, e.now, e.settings)
            && walked == (if WalkStart(tx, AllUrls) > 0 then ReceiptHashes(tx) + Reverse(Hashes(tx.attempts))
                          else ReceiptHashes(tx))
            && HashSet(walked) == EverSaved(images, n)
  {
    var tx, e := images[n], events[n];
    FullWalk(images, events, n);
    NoHashIsForgotten(images, events, n);
    KnownAreAsked(tx);
    ReverseHolds(Hashes(tx.attempts));
    assert HashSet(ReceiptHashes(tx) + Reverse(Hashes(tx.attempts)))
        == HashSet(ReceiptHashes(tx)) + HashSet(Reverse(Hashes(tx.attempts)));
  }

  lemma FullWalk(images: seq<TxRecord>, events: seq<Event>, n: nat)
    requires IsRun(images, events) && n < |events| && events[n].NonceUsedFailure?
    ensures var tx, e := images[n], events[n];
            && ReadyToFail(tx, e.head, e.now, e.settings)
            && Progress(images, events, n) + e.asked
               == (if WalkStart(tx, AllUrls) > 0 then WalkHashes(tx) else ReceiptHashes(tx))
  {
    hide Enabled, Apply, WalkHashes, ReceiptHashes, WalkStart, Progress;
    var tx, e := images[n], events[n];
    assert Enabled(e, tx);
    FailureAsksTheRest(e, tx);
    ProgressIsPrefix(images, events, n);
    var w, from, end := WalkHashes(tx), WalkStart(tx, AllUrls), WalkEnd(tx);
    StartsAtZero(tx);
    assert w[..from] + w[from..end] == w[..end];
  }

  lemma StartsAtZero(tx: TxRecord)
    ensures !Walking(tx) ==> WalkStart(tx, AllUrls) == 0
    ensures |ReceiptHashes(tx)| <= |WalkHashes(tx)| && WalkHashes(tx)[..|ReceiptHashes(tx)|] == ReceiptHashes(tx)
    ensures WalkHashes(tx)[..|WalkHashes(tx)|] == WalkHashes(tx)
  {
  }

  lemma FailureAsksTheRest(e: Event, tx: TxRecord)
    requires e.NonceUsedFailure? && Enabled(e, tx)
    ensures ReadyToFail(tx, e.head, e.now, e.settings)
    ensures WalkStart(tx, AllUrls) <= WalkEnd(tx) <= |WalkHashes(tx)|
    ensures e.asked == WalkHashes(tx)[WalkStart(tx, AllUrls)..WalkEnd(tx)]
  {
  }

  // The wait

  predicate Sighted(tx: TxRecord) { tx.nonceUsedAt.Some? }

  /** The wait a failure relies on was unbroken: the write that began it recorded a used nonce at that time and head, and
      no write after it cleared the sighting. */
  lemma {:induction false} TheWaitIsUnbroken(images: seq<TxRecord>, events: seq<Event>, n: nat) returns (m: nat)
    requires IsRun(images, events) && n < |images| && Sighted(images[n])
    ensures m < n && events[m].NonceSeenUsed?
    ensures images[n].nonceUsedAt == Some(events[m].now) && images[n].nonceUsedAtBlock == Some(events[m].head)
    ensures forall k :: m < k < n ==> !events[k].NonceSeenFree? && !events[k].MinedSeen? && !events[k].NonceSeenUsed?
    decreases n
  {
    hide Apply, Enabled, Initial;
    FirstUnsighted(images, events);
    var e, tx := events[n - 1], images[n - 1];
    assert Enabled(e, tx) && images[n] == Apply(e, tx);
    SightingColumns(e, tx);
    SightedTogether(images, events, n - 1);
    if e.NonceSeenUsed? {
      m := n - 1;
    } else {
      m := TheWaitIsUnbroken(images, events, n - 1);
    }
  }

  lemma FirstUnsighted(images: seq<TxRecord>, events: seq<Event>)
    requires IsRun(images, events)
    ensures !Sighted(images[0]) && images[0].nonceUsedAtBlock.None?
  {
  }

  lemma SightingColumns(e: Event, tx: TxRecord)
    requires Enabled(e, tx)
    ensures Apply(e, tx).nonceUsedAt == NextUsedAt(e, tx) && Apply(e, tx).nonceUsedAtBlock == NextUsedAtBlock(e, tx)
    ensures e.NonceSeenUsed? ==> tx.nonceUsedAt.None? || tx.nonceUsedAtBlock.None?
  {
    hide NextUsedAt, NextUsedAtBlock, WithStatus;
  }

  lemma {:induction false} SightedTogether(images: seq<TxRecord>, events: seq<Event>, n: nat)
    requires IsRun(images, events) && n < |images|
    ensures images[n].nonceUsedAt.Some? <==> images[n].nonceUsedAtBlock.Some?
    decreases n
  {
    hide Apply, Enabled, Initial;
    FirstUnsighted(images, events);
    if n > 0 {
      SightedTogether(images, events, n - 1);
      assert Enabled(events[n - 1], images[n - 1]) && images[n] == Apply(events[n - 1], images[n - 1]);
      SightingColumns(events[n - 1], images[n - 1]);
    }
  }
}
