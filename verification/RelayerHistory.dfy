/** Status changes as events: the dispatcher's reading of a transaction's saves (services/actions/src/events.ts) against
    the record's own history (services/relayer/src/records.ts, withStatus). */
module RelayerHistory {
  import opened Wrappers
  import opened RelayerRecords
  import opened RelayerEvents
  import opened RelayerInvariants
  import opened RelayerRuns

  datatype Change = Change(seqNo: nat, status: Status, at: int)

  /** The history's entries from index i on, numbered from the base. */
  function Entries(tx: TxRecord, i: nat): seq<Change>
    requires i <= |tx.history|
    decreases |tx.history| - i
  {
    if i == |tx.history| then []
    else [Change(tx.historyBase + i, tx.history[i].status, tx.history[i].at)] + Entries(tx, i + 1)
  }

  function Filter(entries: seq<Change>, from: nat): seq<Change> {
    if entries == [] then []
    else (if entries[0].seqNo >= from then [entries[0]] else []) + Filter(entries[1..], from)
  }

  /** changesFor on the stream record of a save: its old and new image. */
  function ChangesFor(before: Option<TxRecord>, after: TxRecord): seq<Change> {
    Filter(Entries(after, 0), if before.Some? then HistoryCount(before.value) else 0)
  }

  lemma {:induction false} FilterKeepsTail(tx: TxRecord, i: nat, from: nat)
    requires i <= |tx.history|
    ensures from >= HistoryCount(tx) ==> Filter(Entries(tx, i), from) == []
    ensures i < |tx.history| && from == HistoryCount(tx) - 1 ==>
              var last := tx.history[|tx.history| - 1];
              Filter(Entries(tx, i), from) == [Change(from, last.status, last.at)]
    decreases |tx.history| - i
  {
    if i < |tx.history| {
      FilterKeepsTail(tx, i + 1, from);
      assert Entries(tx, i)[1..] == Entries(tx, i + 1);
      if i + 1 == |tx.history| { assert Entries(tx, i + 1) == []; }
    }
  }

  /** Everything the dispatcher makes of the saves of a run, in order, the creation included. */
  function Emitted(images: seq<TxRecord>, n: nat): seq<Change>
    requires n < |images|
  {
    if n == 0 then ChangesFor(None, images[0])
    else Emitted(images, n - 1) + ChangesFor(Some(images[n - 1]), images[n])
  }

  /** The statuses the record went through: one entry for each time it changed. */
  function Trail(images: seq<TxRecord>, n: nat): seq<Status>
    requires n < |images|
  {
    if n == 0 then [images[0].status]
    else Trail(images, n - 1) + if images[n].status == images[n - 1].status then [] else [images[n].status]
  }

  /** A save adds at most one entry to the count, with the new status, however much it truncates. */
  lemma CountStep(e: Event, tx: TxRecord)
    requires Enabled(e, tx) && LogsItsStatus(tx)
    ensures var n := Apply(e, tx);
            if n.status == tx.status then n.history == tx.history && n.historyBase == tx.historyBase
            else HistoryCount(n) == HistoryCount(tx) + 1 && n.history != []
  {
    hide Enabled, NextStatus, NextAttempts, NextRetired, NextRetiredAccepted, NextLookup, NextNeedsBump,
         NextFeeCapReached, NextMined, NextUsedAtBlock, NextUsedAt, NextError, NextFiller, NextNonce, Clock,
         AbandonedWith, WithStatus;
    CountWithStatus(tx, NextStatus(e, tx), Clock(e));
  }

  lemma CountWithStatus(tx: TxRecord, status: Status, now: int)
    requires 0 < |tx.history| <= MAX_HISTORY
    ensures var n := WithStatus(tx, status, now);
            && n.status == status
            && if status == tx.status then n == tx
               else n.historyBase + |n.history| == tx.historyBase + |tx.history| + 1 && |n.history| > 0
  {
    var history := tx.history + [HistoryEntry(status, now)];
    if |history| > MAX_HISTORY {
      assert |history[|history| - MAX_HISTORY..]| == MAX_HISTORY;
    }
  }

  lemma ChangesOfStep(e: Event, tx: TxRecord)
    requires Good(tx) && Enabled(e, tx)
    ensures var n := Apply(e, tx);
            var changes := ChangesFor(Some(tx), n);
            && HistoryCount(n) == HistoryCount(tx) + |changes|
            && if n.status == tx.status then changes == []
               else |changes| == 1 && changes[0].seqNo == HistoryCount(tx) && changes[0].status == n.status
  {
    hide Apply, Enabled, Bounded, Backed, Shaped, Filter, Entries;
    var n := Apply(e, tx);
    CountStep(e, tx);
    LogsStep(e, tx);
    FilterKeepsTail(n, 0, HistoryCount(tx));
  }

  /** Over a run of any length, through any truncation of the history: the changes come out numbered 0, 1, 2 and on
      without a gap or a repeat, one for each status the record went through, and the record ends in the last of them. */
  lemma {:induction false} EveryChangeExactlyOnce(images: seq<TxRecord>, events: seq<Event>, n: nat)
    requires IsRun(images, events) && n < |images|
    ensures |Emitted(images, n)| == |Trail(images, n)| == HistoryCount(images[n])
    ensures forall k :: 0 <= k < |Emitted(images, n)| ==>
              Emitted(images, n)[k].seqNo == k && Emitted(images, n)[k].status == Trail(images, n)[k]
    ensures Trail(images, n) != [] && Trail(images, n)[|Trail(images, n)| - 1] == images[n].status
    decreases n
  {
    hide Enabled, Apply, Good, ChangesFor, HistoryCount, Initial;
    if n == 0 {
      FirstChange(images[0]);
    } else {
      EveryChangeExactlyOnce(images, events, n - 1);
      EveryImageIsGood(images, events, n - 1);
      assert Enabled(events[n - 1], images[n - 1]) && images[n] == Apply(events[n - 1], images[n - 1]);
      ChangesOfStep(events[n - 1], images[n - 1]);
      if images[n].status == images[n - 1].status {
        assert Emitted(images, n) == Emitted(images, n - 1) && Trail(images, n) == Trail(images, n - 1);
      }
    }
  }

  lemma FirstChange(tx: TxRecord)
    requires Initial(tx)
    ensures HistoryCount(tx) == 1 && tx.status == Queued
    ensures |ChangesFor(None, tx)| == 1 && ChangesFor(None, tx)[0].seqNo == 0 && ChangesFor(None, tx)[0].status == Queued
  {
    FilterKeepsTail(tx, 0, 0);
  }
}
