/** The sweeper's pass over one submitted or mined transaction (services/relayer/src/sweeper.ts).

    A sweep works on a copy and stops at the first write that conflicts; overlapping sweeps and the end of the time slice
    can come anywhere. Everything it writes or sends is a step of the protocol. */
module RelayerSweeper {
  import opened Wrappers
  import opened ReplacementFees
  import opened RelayerRecords
  import opened RelayerEvents
  import opened RelayerInvariants
  import opened RelayerNonces
  import opened RelayerProtocol
  import opened RelayerSafety
  import opened RelayerBehaviours
  import opened DailySpend
  import opened RelayerStore
  import opened RelayerRefusal

  // The records the sweeper writes are the images of its events

  /** Only the status and the history decide what withStatus does to them. */
  lemma WithStatusOf(a: TxRecord, b: TxRecord, status: Status, now: int)
    requires a.status == b.status && a.history == b.history && a.historyBase == b.historyBase
    ensures WithStatus(b, status, now).history == WithStatus(a, status, now).history
    ensures WithStatus(b, status, now).historyBase == WithStatus(a, status, now).historyBase
  {
    hide AddEntry;
  }

  lemma ReorgedImage(tx: TxRecord, now: int)
    requires Enabled(Reorged(now), tx)
    ensures WithStatus(tx.(mined := None), Submitted, now) == Image(Reorged(now), tx)
  {
    hide WithStatus, Enabled;
    WithStatusKeeps(tx, Submitted, now);
    WithStatusKeeps(tx.(mined := None), Submitted, now);
    WithStatusOf(tx, tx.(mined := None), Submitted, now);
  }

  lemma RequeuedImage(tx: TxRecord, now: int)
    requires Enabled(Requeued(now), tx)
    ensures tx.(enqueuedAt := now, enqueues := tx.enqueues + 1) == Image(Requeued(now), tx)
  {
  }

  lemma ConfirmedImage(tx: TxRecord, now: int)
    requires Enabled(BecameConfirmed(now), tx)
    ensures WithStatus(tx, Confirmed, now) == Image(BecameConfirmed(now), tx)
  {
    hide WithStatus;
    WithStatusKeeps(tx, Confirmed, now);
  }

  lemma MinedImage(tx: TxRecord, receipt: Receipt, now: int)
    requires Enabled(MinedSeen(receipt, now), tx)
    ensures WithStatus(
            tx.(nonceUsedAtBlock := None, nonceUsedAt := None, needsBump := false, lookupFrom := None), Mined, now).(
            mined := Some(receipt), attempts := MarkAccepted(tx.attempts, receipt.hash, now),
            retiredAccepted := tx.retiredAccepted || receipt.hash !in Hashes(tx.attempts))
         == Image(MinedSeen(receipt, now), tx)
  {
    hide WithStatus, Enabled;
    WithStatusKeeps(tx, Status.Mined, now);
    var rest := tx.(nonceUsedAtBlock := None, nonceUsedAt := None, needsBump := false, lookupFrom := None);
    WithStatusKeeps(rest, Status.Mined, now);
    WithStatusOf(tx, rest, Status.Mined, now);
  }

  lemma StoppedImage(tx: TxRecord, walk: Walk, index: nat, asked: seq<Hash>)
    requires Enabled(WalkStopped(walk, index, asked), tx)
    ensures tx.(lookupFrom := Some(Lookup(walk, index))) == Image(WalkStopped(walk, index, asked), tx)
  {
  }

  lemma EndedImage(tx: TxRecord)
    requires Enabled(WalkEnded, tx)
    ensures tx.(lookupFrom := None) == Image(WalkEnded, tx)
  {
  }

  lemma SeenUsedImage(tx: TxRecord, head: nat, now: int)
    requires Enabled(NonceSeenUsed(head, now), tx)
    ensures tx.(nonceUsedAtBlock := if tx.nonceUsedAtBlock.Some? then tx.nonceUsedAtBlock else Some(head),
                nonceUsedAt := Some(now), lookupFrom := None) == Image(NonceSeenUsed(head, now), tx)
  {
  }

  lemma SeenFreeImage(tx: TxRecord)
    requires Enabled(NonceSeenFree, tx)
    ensures tx.(nonceUsedAtBlock := None, nonceUsedAt := None, lookupFrom := None) == Image(NonceSeenFree, tx)
  {
  }

  lemma UsedImage(tx: TxRecord, head: nat, now: int, settings: Settings, asked: seq<Hash>)
    requires Enabled(NonceUsedFailure(head, now, settings, asked), tx)
    ensures WithStatus(tx.(lookupFrom := None), Failed, now).(error := Some(NonceUsed))
         == Image(NonceUsedFailure(head, now, settings, asked), tx)
  {
    hide WithStatus, Enabled;
    WithStatusKeeps(tx, Failed, now);
    WithStatusKeeps(tx.(lookupFrom := None), Failed, now);
    WithStatusOf(tx, tx.(lookupFrom := None), Failed, now);
  }

  lemma ReplacedImage(tx: TxRecord, estimate: Fees, cap: Fees, a: Attempt)
    requires Enabled(Replaced(estimate, cap, a), tx)
    ensures tx.(needsBump := false, attempts := MakeRoom(Kept(tx)) + [a], retiredHashes := RetiredWith(tx),
                retiredAccepted := RetiredAcceptedWith(tx)) == Image(Replaced(estimate, cap, a), tx)
  {
    hide Decide, MakeRoom, Kept, RetiredWith, RetiredAcceptedWith;
  }

  lemma ReplacementImages(tx: TxRecord, hash: Hash, message: string, underpriced: bool, now: int)
    requires tx.status == Submitted && HasHash(tx, hash)
    ensures Enabled(ReplacementTaken(hash, now), tx) && Enabled(ReplacementRefused(hash, message, underpriced), tx)
    ensures tx.(feeCapReached := false, attempts := MarkAccepted(tx.attempts, hash, now))
         == Image(ReplacementTaken(hash, now), tx)
    ensures tx.(attempts := MarkRejected(tx.attempts, hash, message), needsBump := tx.needsBump || underpriced)
         == Image(ReplacementRefused(hash, message, underpriced), tx)
  {
    hide HasHash;
  }

  lemma FeeCapImage(tx: TxRecord)
    requires Enabled(FeeCapFlagged, tx)
    ensures tx.(feeCapReached := true) == Image(FeeCapFlagged, tx)
  {
  }

  lemma RetiredFullImage(tx: TxRecord)
    requires Enabled(RetiredFullFlagged, tx)
    ensures tx.(retiredHashesFull := true) == Image(RetiredFullFlagged, tx)
  {
  }

  lemma BumpNeededImage(tx: TxRecord)
    requires Enabled(BumpNeeded, tx)
    ensures tx.(needsBump := true) == Image(BumpNeeded, tx)
  {
  }

  lemma RebroadcastImage(tx: TxRecord, index: nat, now: int)
    requires Enabled(Rebroadcast(index, now), tx)
    ensures var rest := if tx.attempts[index].rejected.None? then tx else tx.(needsBump := false, feeCapReached := false);
            rest.(attempts := TakenAgainAll(tx.attempts, tx.attempts[index], now)) == Image(Rebroadcast(index, now), tx)
  {
  }

  // makeRoom

  /** The loop of makeRoom, which keeps the count of signatures still to strip, computes the recursive MakeRoom. */
  method StripForRoom(attempts: seq<Attempt>) returns (kept: seq<Attempt>)
    ensures kept == MakeRoom(attempts)
  {
    hide Signed, StripOldest;
    var over := Signed(attempts) + 1 - MAX_SIGNED_ATTEMPTS;
    kept := [];
    assert attempts[0..] == attempts;
    for i := 0 to |attempts|
      invariant MakeRoom(attempts) == kept + StripOldest(attempts[i..], over)
    {
      var a := attempts[i];
      assert attempts[i..][0] == a && attempts[i..][1..] == attempts[i + 1..];
      StripNext(kept, attempts[i..], over);
      if over <= 0 || a.rejected.None? || a.raw.Stripped? {
        kept := kept + [a];
      } else {
        over := over - 1;
        kept := kept + [a.(raw := Stripped)];
      }
    }
    assert attempts[|attempts|..] == [];
    StripNone(over);
    assert kept + [] == kept;
  }

  /** One round of the loop. */
  lemma StripNext(before: seq<Attempt>, rest: seq<Attempt>, over: int)
    requires rest != []
    ensures var a := rest[0];
            before + StripOldest(rest, over)
            == if over <= 0 || a.rejected.None? || a.raw.Stripped? then (before + [a]) + StripOldest(rest[1..], over)
               else (before + [a.(raw := Stripped)]) + StripOldest(rest[1..], over - 1)
  {
    if over <= 0 {
      StripNothing(rest, over);
      StripNothing(rest[1..], over);
      assert rest == [rest[0]] + rest[1..];
    }
  }

  lemma StripNone(over: int)
    ensures StripOldest([], over) == []
  {
  }

  // The sweep

  datatype Swept = Done | Unchanged(tx: TxRecord) | FailedAsUsed | Threw

  /** How far a walk got: through the list, to the position where time ran out, to a receipt, or to a URL that could not
      answer. */
  datatype Walked = WentThrough | RanOut(index: nat) | Came(receipt: Receipt) | NoAnswer

  /** Where in this list a walk that starts counting at `start` takes up. */
  function SkipTo(list: seq<Hash>, start: nat, from: nat): (k: nat)
    ensures k <= |list|
  {
    if from <= start then 0 else if from - start >= |list| then |list| else from - start
  }

  /** The greatest of SentAt over the attempts; IsStuck measures from it. */
  function LastSentAt(attempts: seq<Attempt>): (at: int)
    requires attempts != []
    ensures forall i :: 0 <= i < |attempts| ==> SentAt(attempts[i]) <= at
    ensures exists i :: 0 <= i < |attempts| && SentAt(attempts[i]) == at
  {
    var last := SentAt(attempts[|attempts| - 1]);
    if |attempts| == 1 then last
    else
      var rest := LastSentAt(attempts[..|attempts| - 1]);
      if rest > last then rest else last
  }

  function SentAt(a: Attempt): int { if a.broadcastAt.Some? then a.broadcastAt.value else a.signedAt }

  /** What such a walk asks of the list before position `to`. */
  function Piece(list: seq<Hash>, start: nat, from: nat, to: nat): seq<Hash> {
    var skip := SkipTo(list, start, from);
    if start + skip <= to <= start + |list| then list[skip..to - start] else []
  }

  /** Where a walk of one list ended. */
  predicate Ends(walked: Walked, at: nat, start: nat, list: seq<Hash>, from: nat) {
    match walked
    case WentThrough => at == start + |list|
    case RanOut(index) => at == index && start <= at < start + |list| && from <= at
    case Came(_) => start <= at < start + |list| && from <= at
    case NoAnswer => false
  }

  /** What such a walk was told: of no receipt for each hash before the end, and of the receipt that came. */
  function Asked(list: seq<Hash>, start: nat, from: nat, at: nat, walked: Walked): seq<Heard>
    requires Ends(walked, at, start, list, from)
  {
    NoReceipts(Piece(list, start, from, at)) + if walked.Came? then [ReceiptOf(list[at - start], Some(walked.receipt))] else []
  }

  lemma PieceNext(list: seq<Hash>, start: nat, from: nat, i: nat)
    requires i < |list| && from <= start + i
    ensures Piece(list, start, from, start + i + 1) == Piece(list, start, from, start + i) + [list[i]]
  {
  }

  lemma NoPiece(list: seq<Hash>, start: nat, from: nat)
    ensures Piece(list, start, from, start) == [] && NoReceipts([]) == []
  {
  }

  lemma PieceSkips(list: seq<Hash>, start: nat, from: nat, i: nat)
    requires i < |list| && start + i < from
    ensures Piece(list, start, from, start + i + 1) == Piece(list, start, from, start + i)
  {
  }

  lemma PieceOfFirst(a: seq<Hash>, b: seq<Hash>, from: nat, to: nat)
    requires from <= to <= |a|
    ensures Piece(a, 0, from, to) == (a + b)[from..to]
  {
  }

  lemma PieceOfBoth(a: seq<Hash>, b: seq<Hash>, from: nat, to: nat, before: seq<Hash>)
    requires from <= to && |a| <= to <= |a| + |b|
    ensures (before + Piece(a, 0, from, |a|)) + Piece(b, |a|, from, to) == before + (a + b)[from..to]
  {
  }

  /** The sweep is at work on this image. */
  predicate Asks(w: World, k: nat, tx: TxRecord) { Seen(w, tx) && k in w.sweeps && w.sweeps[k].copy == tx }

  predicate IsReady(w: World, tx: TxRecord) { Seen(w, tx) && tx.status == Submitted && tx.lookupFrom.None? }

  /** A refusal failed the transaction, with its filler, only if no node may have it; otherwise it was only noted. */
  ghost predicate RefusedAs(w: World, tx: TxRecord, hash: Hash, message: string, newTxId: TxId, now: int) {
    if MayBeMined(tx, hash) then Saved(w, tx, RefusalKept(hash, message, now))
    else FailedByRefusal(w, tx, hash, message, newTxId, now)
  }

  /** The three answers that are saved as an acceptance. */
  predicate MayBeTaken(outcome: SendOutcome) { outcome.Accepted? || outcome.AlreadyKnown? || outcome.Unknown? }

  /** What is saved once bytes that were sent again are answered. */
  ghost predicate RebroadcastSettled(w: World, tx: TxRecord, index: nat, outcome: SendOutcome, newTxId: TxId, now: int)
    requires index < |tx.attempts|
  {
    var attempt := tx.attempts[index];
    && (MayBeTaken(outcome) ==>
          (attempt.rejected.None? && attempt.acceptedAt.Some?) || Saved(w, tx, Event.Rebroadcast(index, now)))
    && (outcome.Rejected? ==> RefusedAs(w, tx, attempt.hash, outcome.message, newTxId, now))
    && (outcome.Underpriced? ==> tx.needsBump || Saved(w, tx, BumpNeeded))
  }

  /** What is saved once a replacement is answered. */
  ghost predicate ReplacementSettled(w: World, tx: TxRecord, outcome: SendOutcome, newTxId: TxId, now: int)
    requires tx.attempts != []
  {
    var hash := LatestHash(tx);
    && (MayBeTaken(outcome) ==> Saved(w, tx, ReplacementTaken(hash, now)))
    && (outcome.Rejected? ==> RefusedAs(w, tx, hash, outcome.message, newTxId, now))
    && (outcome.Underpriced? || outcome.InsufficientFunds? ==>
          Saved(w, tx, ReplacementRefused(hash, outcome.message, outcome.Underpriced?)))
  }

  /** The URLs' answers for some hash of the list were what ended the walk: a receipt from one of them, or silence with no
      receipt from any. */
  ghost predicate SaidOf(list: seq<Hash>, walked: Walked, was: seq<Heard>, told: seq<Heard>) {
    exists i, answers ::
      && 0 <= i < |list| && Told(was, told, UrlsSaid(list[i], answers))
      && match walked
         case Came(receipt) => Verdict(answers) == FoundReceipt(receipt)
         case _ => Verdict(answers) == Unanswered
  }

  lemma LastSaid(list: seq<Hash>, i: nat, answers: seq<UrlAnswer>, was: seq<Heard>, told: seq<Heard>)
    requires i < |list| && was < told && told[|told| - 1] == UrlsSaid(list[i], answers)
    ensures match Verdict(answers)
            case FoundReceipt(receipt) => SaidOf(list, Came(receipt), was, told)
            case Unanswered => SaidOf(list, NoAnswer, was, told)
            case NoReceipt => true
  {
    assert Told(was, told, UrlsSaid(list[i], answers));
  }

  lemma SaidOfMore(list: seq<Hash>, more: seq<Hash>, walked: Walked, was: seq<Heard>, from: seq<Heard>, told: seq<Heard>,
                   later: seq<Heard>)
    requires (forall h :: h in list ==> h in more) && was <= from && told <= later && SaidOf(list, walked, from, told)
    ensures SaidOf(more, walked, was, later)
  {
    hide Verdict;
    var i, answers :| 0 <= i < |list| && Told(from, told, UrlsSaid(list[i], answers))
                      && match walked
                         case Came(receipt) => Verdict(answers) == FoundReceipt(receipt)
                         case _ => Verdict(answers) == Unanswered;
    assert list[i] in list && list[i] in more;
    var j :| 0 <= j < |more| && more[j] == list[i];
    ToldStays(was, from, told, later, UrlsSaid(more[j], answers));
  }

  /** Which walk a sweep makes: every URL is asked only once the transaction could be failed for it. */
  function WalkOf(tx: TxRecord, head: int, now: int, settings: Settings): Walk {
    if ReadyToFail(tx, head, now, settings) then AllUrls else Receipts
  }

  /** What a sweep of the all-URL walk has asked when it comes to this position. */
  function AskedUpTo(tx: TxRecord, index: nat): seq<Hash>
    requires WalkStart(tx, AllUrls) <= index <= |WalkHashes(tx)|
  {
    WalkHashes(tx)[WalkStart(tx, AllUrls)..index]
  }

  /** Every URL denied this sweep of this image every hash from where the walk took up to this position, and that is what
      was saved. */
  ghost predicate StoppedAfterDenials(w: World, tx: TxRecord, index: nat, k: nat) {
    && WalkStart(tx, AllUrls) <= index < WalkEnd(tx) <= |WalkHashes(tx)|
    && k in w.sweeps && w.sweeps[k] == Walker(tx, AskedUpTo(tx, index))
    && Saved(w, tx, WalkStopped(AllUrls, index, AskedUpTo(tx, index)))
  }

  /** The same for the whole rest of the walk, which fails the transaction. */
  ghost predicate FailedAfterDenials(w: World, tx: TxRecord, head: nat, now: int, settings: Settings, k: nat) {
    && ReadyToFail(tx, head, now, settings) && WalkStart(tx, AllUrls) <= WalkEnd(tx) <= |WalkHashes(tx)|
    && k in w.sweeps && w.sweeps[k] == Walker(tx, AskedUpTo(tx, WalkEnd(tx)))
    && Saved(w, tx, NonceUsedFailure(head, now, settings, AskedUpTo(tx, WalkEnd(tx))))
  }

  /** The signature at these fees was saved as the replacement, and then sent. */
  ghost predicate SignedAs(was: World, w: World, tx: TxRecord, fees: Fees, estimate: Fees, cap: Fees) {
    exists attempt: Attempt ::
      attempt.fees == fees && Saved(w, tx, Replaced(estimate, cap, attempt)) && SentHash(was, w, tx.txId, attempt.hash)
  }

  /** The record with nothing but flags changed. */
  predicate Flagged(from: TxRecord, tx: TxRecord) {
    tx == from.(feeCapReached := tx.feeCapReached, retiredHashesFull := tx.retiredHashesFull, version := tx.version)
  }

  /** What replace did is what Decide says of the record and the estimate. With nothing live and the estimate over the
      cap, the flag is saved first. */
  ghost predicate ReplacedAsDecided(was: World, w: World, tx: TxRecord, estimate: Fees, cap: Fees, r: Swept) {
    match r
    case FailedAsUsed => false
    case Threw => true
    case Unchanged(now) =>
      && IsReady(w, now) && Flagged(tx, now)
      && (Decide(tx, estimate, cap).FlagFeeCap? || Decide(tx, estimate, cap).FlagRetiredHashesFull?)
      && (if Decide(tx, estimate, cap).FlagFeeCap? then now.feeCapReached else now.retiredHashesFull)
    case Done =>
      match Decide(tx, estimate, cap)
      case SendStored(index) => index < |tx.attempts| && SentHash(was, w, tx.txId, tx.attempts[index].hash)
      case Sign(fees) => exists from :: Flagged(tx, from) && SignedAs(was, w, from, fees, estimate, cap)
      case _ => false
  }

  lemma SameDecision(from: TxRecord, tx: TxRecord, estimate: Fees, cap: Fees)
    requires Flagged(from, tx)
    ensures Decide(from, estimate, cap) == Decide(tx, estimate, cap)
  {
    hide BumpLive, Blocking, FirstWithBytes, LiveIndex, DropIndex, ClampFees, Unrefused;
  }

  /** A flag saved first is in the way of nothing. */
  lemma FlaggedFirst(was: World, u: World, w: World, tx0: TxRecord, tx: TxRecord, estimate: Fees, cap: Fees, r: Swept)
    requires WorldOk(was) && Reaches(was, u) && Flagged(tx0, tx) && Decide(tx0, estimate, cap) == Decide(tx, estimate, cap)
    requires ReplacedAsDecided(u, w, tx, estimate, cap, r)
    ensures ReplacedAsDecided(was, w, tx0, estimate, cap, r)
  {
    hide WorldOk, Reaches, Decide, SentHash, Saved, Seen;
    if r.Done? {
      match Decide(tx, estimate, cap)
      case SendStored(index) => SentHashAfter(was, u, w, tx.txId, tx.attempts[index].hash);
      case Sign(fees) =>
        var from :| Flagged(tx, from) && SignedAs(u, w, from, fees, estimate, cap);
        var attempt: Attempt :| attempt.fees == fees && Saved(w, from, Replaced(estimate, cap, attempt))
                                && SentHash(u, w, from.txId, attempt.hash);
        SentHashAfter(was, u, w, from.txId, attempt.hash);
        assert Flagged(tx0, from) && SignedAs(was, w, from, fees, estimate, cap);
      case _ =>
    }
  }

  /** A receipt is saved as mined, and a walk that ran out of time as stopped where it was. */
  ghost predicate WalkSettled(w: World, tx: TxRecord, walk: Walk, walked: Walked, k: nat, now: int) {
    && (walked.Came? ==> Saved(w, tx, MinedSeen(walked.receipt, now)))
    && (walked.RanOut? ==>
          match walk
          case Receipts =>
            WalkStart(tx, Receipts) <= walked.index < |ReceiptHashes(tx)| && Saved(w, tx, WalkStopped(Receipts, walked.index, []))
          case AllUrls => StoppedAfterDenials(w, tx, walked.index, k))
  }

  /** Without a sighting on record this one is saved; with one, a saved walk is cleared. */
  ghost predicate UsedNoted(w: World, tx: TxRecord, head: nat, now: int) {
    if tx.nonceUsedAtBlock.None? || tx.nonceUsedAt.None? then Saved(w, tx, NonceSeenUsed(head, now))
    else tx.lookupFrom.Some? ==> Saved(w, tx, WalkEnded)
  }

  /** A nonce read as free ends the wait. */
  ghost predicate SightingForgotten(w: World, tx: TxRecord) {
    tx.nonceUsedAtBlock.Some? || tx.nonceUsedAt.Some? || tx.lookupFrom.Some? ==> Saved(w, tx, NonceSeenFree)
  }

  /** What a sweep did with a transaction whose nonce is free: whether it tried to replace it, from which record, at which
      estimate, and whether the node knew its live signature. */
  datatype Pending = Pending(tried: bool, tx: TxRecord, estimate: Fees, known: bool)

  ghost predicate PendingChecked(was: World, w: World, heard: seq<Heard>, told: seq<Heard>, tx0: TxRecord, minedNonce: nat,
                                 stuckAfter: int, cap: Fees, now: int, p: Pending)
  {
    && SightingForgotten(w, tx0) && Forgot(tx0, p.tx) && p.tx.attempts != []
    && (p.tried <==> Some(minedNonce) == tx0.nonce && (tx0.needsBump || IsStuck(tx0, stuckAfter, now)))
    && (p.tried ==> Told(heard, told, FeesAre(p.estimate)))
    && if p.tried && Sends(Decide(p.tx, p.estimate, cap)) then ReplacedAsDecided(was, w, p.tx, p.estimate, cap, Done)
       else UnknownSent(was, w, p.tx, p.known)
            && (LiveIndex(p.tx.attempts).Some? ==> Told(heard, told, KnownIs(LiveHash(p.tx), p.known)))
  }

  predicate Sends(d: Decision) { d.Sign? || d.SendStored? }

  lemma ReplacedAfter(was: World, u: World, w: World, tx: TxRecord, estimate: Fees, cap: Fees, r: Swept)
    requires WorldOk(was) && Reaches(was, u) && ReplacedAsDecided(u, w, tx, estimate, cap, r)
    ensures ReplacedAsDecided(was, w, tx, estimate, cap, r)
  {
    hide WorldOk, Reaches, Decide, SentHash, Saved, Seen;
    FlaggedFirst(was, u, w, tx, tx, estimate, cap, r);
  }

  lemma DoneIsSent(was: World, w: World, tx: TxRecord, estimate: Fees, cap: Fees)
    requires ReplacedAsDecided(was, w, tx, estimate, cap, Done)
    ensures Sends(Decide(tx, estimate, cap))
  {
    hide Decide, SentHash, SignedAs;
  }

  lemma UnchangedIsFlagged(was: World, w: World, tx: TxRecord, estimate: Fees, cap: Fees, r: Swept)
    requires ReplacedAsDecided(was, w, tx, estimate, cap, r) && r.Unchanged?
    ensures IsReady(w, r.tx) && Flagged(tx, r.tx) && !Sends(Decide(tx, estimate, cap))
  {
    hide Decide, SentHash, SignedAs, Seen;
  }

  lemma PendingAfter(was: World, u: World, w: World, heard: seq<Heard>, from: seq<Heard>, told: seq<Heard>, tx0: TxRecord,
                     minedNonce: nat, stuckAfter: int, cap: Fees, now: int, p: Pending)
    requires WorldOk(was) && Reaches(was, u) && heard <= from
    requires PendingChecked(u, w, from, told, tx0, minedNonce, stuckAfter, cap, now, p)
    ensures PendingChecked(was, w, heard, told, tx0, minedNonce, stuckAfter, cap, now, p)
  {
    hide WorldOk, Reaches, Decide, SentHash, SightingForgotten, Told, ReplacedAsDecided, UnknownSent;
    if p.tried { ToldStays(heard, from, told, told, FeesAre(p.estimate)); }
    if p.tried && Sends(Decide(p.tx, p.estimate, cap)) {
      ReplacedAfter(was, u, w, p.tx, p.estimate, cap, Done);
    } else {
      UnknownSentAfter(was, u, w, p.tx, p.tx, p.known, Done);
      if LiveIndex(p.tx.attempts).Some? { ToldStays(heard, from, told, told, KnownIs(LiveHash(p.tx), p.known)); }
    }
  }

  // What a receipts walk was told

  /** The answers about receipts, in order. */
  function OnlyReceipts(told: seq<Heard>): seq<Heard> {
    if told == [] then []
    else OnlyReceipts(told[..|told| - 1]) + if told[|told| - 1].ReceiptOf? then [told[|told| - 1]] else []
  }

  lemma {:induction false} OnlyReceiptsOfBoth(a: seq<Heard>, b: seq<Heard>)
    ensures OnlyReceipts(a + b) == OnlyReceipts(a) + OnlyReceipts(b)
  {
    if b == [] {
      assert a + b == a;
    } else {
      assert (a + b)[..|a + b| - 1] == a + b[..|b| - 1];
      OnlyReceiptsOfBoth(a, b[..|b| - 1]);
    }
  }

  lemma {:induction false} AllReceipts(told: seq<Heard>)
    requires forall i :: 0 <= i < |told| ==> told[i].ReceiptOf?
    ensures OnlyReceipts(told) == told
  {
    if told != [] {
      AllReceipts(told[..|told| - 1]);
      assert told == told[..|told| - 1] + [told[|told| - 1]];
    }
  }

  /** A receipts walk: a node said of every hash from where the walk took up to where it ended that it has no receipt, in
      the order of the walk, and then of the receipt that came, if one did; of the stored attempts before the nonce was
      read. A nonce that is free ends the walk behind them. */
  ghost predicate ReceiptsWalked(tx: TxRecord, was: seq<Heard>, told: seq<Heard>, minedNonce: Option<nat>, walked: Walked,
                                 at: nat)
  {
    var from, all := WalkStart(tx, Receipts), ReceiptHashes(tx);
    && was <= told && !walked.NoAnswer?
    && (minedNonce.Some? ==> was + NoReceipts(Piece(all, 0, from, |tx.attempts|)) + [NonceIs(minedNonce.value)] <= told)
    && (minedNonce.None? || minedNonce.value > NonceOf(tx) ==>
          && Ends(walked, at, 0, all, from)
          && OnlyReceipts(told[|was|..]) == Asked(all, 0, from, at, walked))
    && (minedNonce.None? ==> walked.RanOut? || walked.Came?)
  }

  function NonceOf(tx: TxRecord): nat { if tx.nonce.Some? then tx.nonce.value else 0 }

  lemma PieceOfFront(a: seq<Hash>, b: seq<Hash>, from: nat, to: nat)
    requires to <= |a|
    ensures Piece(a, 0, from, to) == Piece(a + b, 0, from, to)
  {
  }

  lemma PiecesJoin(a: seq<Hash>, b: seq<Hash>, from: nat, to: nat)
    requires |a| <= to <= |a| + |b|
    ensures Piece(a, 0, from, |a|) + Piece(b, |a|, from, to) == Piece(a + b, 0, from, to)
  {
    hide Piece, SkipTo;
    WholePiece(a, 0, from, |a|);
    WholePiece(b, |a|, from, to);
    WholePiece(a + b, 0, from, to);
    if from <= |a| {
      assert Piece(a, 0, from, |a|) == a[from..];
      SlicesJoin(a, b, from, to);
    } else {
      assert Piece(a, 0, from, |a|) == [];
      var rest := Piece(b, |a|, from, to);
      assert [] + rest == rest;
      if from <= to { SliceOfSecond(a, b, from, to); }
    }
  }

  /** A piece, counted in the list itself. */
  lemma WholePiece(list: seq<Hash>, start: nat, from: nat, to: nat)
    requires start <= to <= start + |list|
    ensures Piece(list, start, from, to)
         == if from > to then [] else if from <= start then list[..to - start] else list[from - start..to - start]
  {
  }

  lemma SlicesJoin(a: seq<Hash>, b: seq<Hash>, from: nat, to: nat)
    requires from <= |a| <= to <= |a| + |b|
    ensures a[from..] + b[..to - |a|] == (a + b)[from..to]
  {
  }

  lemma SliceOfSecond(a: seq<Hash>, b: seq<Hash>, from: nat, to: nat)
    requires |a| <= from <= to <= |a| + |b|
    ensures b[from - |a|..to - |a|] == (a + b)[from..to]
  {
  }

  lemma FirstHalfWalked(tx: TxRecord, was: seq<Heard>, told: seq<Heard>, walked: Walked, at: nat)
    requires var from, a := WalkStart(tx, Receipts), Reverse(Hashes(tx.attempts));
             && !walked.WentThrough? && Ends(walked, at, 0, a, from) && told == was + Asked(a, 0, from, at, walked)
    ensures ReceiptsWalked(tx, was, told, None, walked, at)
  {
    hide WalkStart, Piece;
    var from, a, b := WalkStart(tx, Receipts), Reverse(Hashes(tx.attempts)), Reverse(tx.retiredHashes);
    PieceOfFront(a, b, from, at);
    assert ReceiptHashes(tx) == a + b && (a + b)[at] == a[at];
    assert told[|was|..] == Asked(a + b, 0, from, at, walked);
    AllReceipts(told[|was|..]);
  }

  lemma SecondHalfWalked(tx: TxRecord, was: seq<Heard>, first: seq<Heard>, read: seq<Heard>, told: seq<Heard>, nonce: nat,
                         walked: Walked, at: nat)
    requires var from, a, b := WalkStart(tx, Receipts), Reverse(Hashes(tx.attempts)), Reverse(tx.retiredHashes);
             && first == was + NoReceipts(Piece(a, 0, from, |a|)) && read == first + [NonceIs(nonce)]
             && Ends(walked, at, |a|, b, from) && told == read + Asked(b, |a|, from, at, walked)
    ensures ReceiptsWalked(tx, was, told, Some(nonce), walked, at)
  {
    hide WalkStart, Piece, NoReceipts, OnlyReceipts, Reverse;
    var from, a, b := WalkStart(tx, Receipts), Reverse(Hashes(tx.attempts)), Reverse(tx.retiredHashes);
    var one, two := NoReceipts(Piece(a, 0, from, |a|)), Asked(b, |a|, from, at, walked);
    PieceOfFront(a, b, from, |a|);
    assert ReceiptHashes(tx) == a + b;
    assert told[|was|..] == (one + [NonceIs(nonce)]) + two;
    OnlyReceiptsAround(one, NonceIs(nonce), two);
    HalvesAsked(a, b, from, at, walked);
  }

  lemma OnlyReceiptsAround(one: seq<Heard>, what: Heard, two: seq<Heard>)
    requires forall i :: 0 <= i < |one| ==> one[i].ReceiptOf?
    requires forall i :: 0 <= i < |two| ==> two[i].ReceiptOf?
    requires !what.ReceiptOf?
    ensures OnlyReceipts((one + [what]) + two) == one + two
  {
    OnlyReceiptsOfBoth(one + [what], two);
    OnlyReceiptsOfBoth(one, [what]);
    OnlyOne(what);
    AllReceipts(one);
    AllReceipts(two);
    assert one + [] == one;
  }

  /** The two lists one after the other are the walk. */
  lemma HalvesAsked(a: seq<Hash>, b: seq<Hash>, from: nat, at: nat, walked: Walked)
    requires Ends(walked, at, |a|, b, from)
    ensures Ends(walked, at, 0, a + b, from)
    ensures NoReceipts(Piece(a, 0, from, |a|)) + Asked(b, |a|, from, at, walked) == Asked(a + b, 0, from, at, walked)
  {
    hide Piece;
    PiecesJoin(a, b, from, at);
    if walked.Came? { assert (a + b)[at] == b[at - |a|]; }
  }

  lemma OnlyOne(what: Heard)
    requires !what.ReceiptOf?
    ensures OnlyReceipts([what]) == []
  {
    assert [what][..0] == [];
  }

  lemma PendingWalked(tx: TxRecord, was: seq<Heard>, read: seq<Heard>, told: seq<Heard>, nonce: nat)
    requires tx.nonce.Some? && nonce <= tx.nonce.value && read <= told
    requires var a := Reverse(Hashes(tx.attempts));
             read == was + NoReceipts(Piece(a, 0, WalkStart(tx, Receipts), |a|)) + [NonceIs(nonce)]
    ensures ReceiptsWalked(tx, was, told, Some(nonce), WentThrough, |tx.attempts|)
    ensures forall at :: ReceiptsWalked(tx, was, told, Some(nonce), WentThrough, at)
  {
    hide WalkStart, Piece;
    var a, b := Reverse(Hashes(tx.attempts)), Reverse(tx.retiredHashes);
    PieceOfFront(a, b, WalkStart(tx, Receipts), |a|);
  }

  /** A walk of all URLs: the nonce was read first, and what ended it early was said by them. */
  ghost predicate UrlsWalked(tx: TxRecord, was: seq<Heard>, told: seq<Heard>, minedNonce: Option<nat>, walked: Walked) {
    && minedNonce.Some? && was + [NonceIs(minedNonce.value)] <= told
    && (walked.NoAnswer? || walked.Came? ==> SaidOf(WalkHashes(tx), walked, was, told))
  }

  /** The record without its sighting and its walk. */
  predicate Forgot(from: TxRecord, tx: TxRecord) {
    tx == from.(nonceUsedAtBlock := None, nonceUsedAt := None, lookupFrom := None, version := tx.version)
  }

  predicate IsStuck(tx: TxRecord, stuckAfter: int, now: int) {
    tx.attempts != [] && now - LastSentAt(tx.attempts) >= stuckAfter
  }

  /** This was said since. */
  ghost predicate Told(was: seq<Heard>, told: seq<Heard>, what: Heard) {
    exists i :: |was| <= i < |told| && told[i] == what
  }

  lemma ToldFirst(was: seq<Heard>, told: seq<Heard>, what: Heard)
    requires was + [what] <= told
    ensures Told(was, told, what)
  {
    assert told[|was|] == what;
  }

  lemma ToldStays(was: seq<Heard>, from: seq<Heard>, told: seq<Heard>, later: seq<Heard>, what: Heard)
    requires was <= from && told <= later && Told(from, told, what)
    ensures Told(was, later, what)
  {
  }

  function LiveHash(tx: TxRecord): Hash
    requires LiveIndex(tx.attempts).Some?
  {
    tx.attempts[LiveIndex(tx.attempts).value].hash
  }

  /** The live signature was sent if there is one the node does not know. */
  ghost predicate UnknownSent(was: World, w: World, tx: TxRecord, known: bool) {
    LiveIndex(tx.attempts).Some? && !known ==> SentHash(was, w, tx.txId, tx.attempts[LiveIndex(tx.attempts).value].hash)
  }

  lemma UnknownSentAfter(was: World, u: World, w: World, present: TxRecord, tx: TxRecord, known: bool, r: Swept)
    requires WorldOk(was) && Reaches(was, u) && UnknownSent(u, w, present, known)
    requires present.txId == tx.txId && present.attempts == tx.attempts
    ensures UnknownSent(was, w, tx, known)
  {
    hide WorldOk, Reaches, SentHash;
    if LiveIndex(tx.attempts).Some? && !known {
      SentHashAfter(was, u, w, tx.txId, tx.attempts[LiveIndex(tx.attempts).value].hash);
    }
  }

  /** The receipt the record was mined with still stands. */
  predicate StillMined(tx: TxRecord, receipt: Option<Receipt>)
    requires tx.mined.Some?
  {
    receipt.Some? && receipt.value.blockHash == tx.mined.value.blockHash
  }

  predicate HasMinedBytes(tx: TxRecord)
    requires tx.mined.Some?
  {
    exists i :: 0 <= i < |tx.attempts| && tx.attempts[i].hash == tx.mined.value.hash && tx.attempts[i].raw.Bytes?
  }

  class Sweeper {
    const store: Store
    const node: Node
    const refusal: Refusal
    // messages to the signer's queue, in order, and how many it did not take
    var messages: seq<TxId>
    ghost var lost: nat

    ghost predicate Ready()
      reads this, store
    {
      store.Valid() && node.store == store && node.urls > 0 && refusal.store == store && refusal.node == node
    }

    constructor (store: Store, node: Node, refusal: Refusal)
      requires store.Valid() && node.store == store && node.urls > 0 && refusal.store == store && refusal.node == node
      ensures Ready() && this.store == store && this.node == node && this.refusal == refusal && messages == [] && lost == 0
    {
      this.store, this.node, this.refusal, messages, lost := store, node, refusal, [], 0;
    }

    /** Saves the image of one of the sweeper's events. */
    method Save(next: TxRecord, ghost tx: TxRecord, ghost e: Event, ghost walker: Option<nat> := None)
      returns (saved: Option<TxRecord>)
      requires Ready() && Seen(store.w, tx) && SweeperEvent(e) && !e.RefusalKept? && Enabled(e, tx) && next == Image(e, tx)
      requires Answered(store.w, e, tx, walker)
      modifies store
      ensures Ready() && Reaches(old(store.w), store.w)
      ensures walker.Some? ==> SameSweep(old(store.w), store.w, walker.value)
      ensures saved.Some? ==> saved.value == Apply(e, tx) && Seen(store.w, saved.value) && Saved(store.w, tx, e)
      ensures store.Called(saved.None?) && store.clashes == old(store.clashes)
    {
      hide WorldOk, Mirrors, Books, AllReserved, ClaimsOk, Reaches, IsImage, Enabled, Image;
      saved := store.SaveTx(next, tx, SweepWrites(tx.txId, e, walker));
    }

    /** Writes a new enqueuing time and sends a message if the old time is at least `requeueAfter` ago. */
    method RequeueIfStale(tx: TxRecord, requeueAfter: int, now: int) returns (r: Swept)
      requires Ready() && Seen(store.w, tx) && tx.status == Queued
      modifies store, this`messages, this`lost
      ensures Ready() && Reaches(old(store.w), store.w) && (r.Done? || r.Threw?)
      ensures r.Done? && now - tx.enqueuedAt >= requeueAfter ==>
                Saved(store.w, tx, Requeued(now)) && messages == old(messages) + [tx.txId]
      ensures now - tx.enqueuedAt < requeueAfter ==> r.Done? && store.w == old(store.w) && messages == old(messages)
      ensures store.Onward(false) && (r.Threw? ==> store.mishaps > old(store.mishaps) || lost > old(lost))
    {
      hide WorldOk, Mirrors, Books, AllReserved, ClaimsOk, Reaches, IsImage, Image;
      ReachesItself(store.w);
      if now - tx.enqueuedAt < requeueAfter { return Done; }
      RequeuedImage(tx, now);
      var saved := Save(tx.(enqueuedAt := now, enqueues := tx.enqueues + 1), tx, Requeued(now));
      if saved.None? { return Threw; }
      var taken: bool := *;
      if !taken {
        lost := lost + 1;
        return Threw;
      }
      messages := messages + [tx.txId];
      return Done;
    }

    /** The shared refusal rule, as the sweeper reports it. */
    method Refuse(tx: TxRecord, index: nat, message: string, newTxId: TxId, now: int) returns (r: Swept)
      requires Ready() && IsReady(store.w, tx) && index < |tx.attempts|
      modifies store
      ensures Ready() && Reaches(old(store.w), store.w) && (r.Done? || r.Threw?)
      ensures r.Done? ==> RefusedAs(store.w, tx, tx.attempts[index].hash, message, newTxId, now)
      ensures store.Onward(r.Threw?)
    {
      hide WorldOk, Mirrors, Books, AllReserved, ClaimsOk, Reaches, IsImage, MayBeMined, FailedByRefusal;
      assert Hashes(tx.attempts)[index] == tx.attempts[index].hash;
      var outcome := refusal.RefuseAttempt(tx, tx.attempts[index].hash, message, newTxId, now, None);
      return if outcome.RefusalThrows? then Threw else Done;
    }

    /** Sends bytes the record has: never a stripped signature. A node that takes bytes it refused before makes them live
        again. */
    method Rebroadcast(tx: TxRecord, index: nat, newTxId: TxId, now: int) returns (r: Swept, outcome: SendOutcome)
      requires Ready() && IsReady(store.w, tx) && index < |tx.attempts| && tx.attempts[index].raw.Bytes?
      modifies store
      ensures Ready() && Reaches(old(store.w), store.w) && (r.Done? || r.Threw?)
      ensures SentHash(old(store.w), store.w, tx.txId, tx.attempts[index].hash)
      ensures r.Done? ==> RebroadcastSettled(store.w, tx, index, outcome, newTxId, now)
      ensures store.Onward(r.Threw?)
    {
      hide WorldOk, Mirrors, Books, AllReserved, ClaimsOk, Reaches, IsImage, RefusedAs, Seen, SentHash, Saved;
      outcome := SendStored(tx, index);
      ghost var sent := store.w;
      r := SettleRebroadcast(tx, index, outcome, newTxId, now);
      ReachesTransitively(old(store.w), sent, store.w);
      SentHashStays(old(store.w), sent, store.w, tx.txId, tx.attempts[index].hash);
    }

    /** The send itself. */
    method SendStored(tx: TxRecord, index: nat) returns (outcome: SendOutcome)
      requires Ready() && IsReady(store.w, tx) && index < |tx.attempts| && tx.attempts[index].raw.Bytes?
      modifies store
      ensures Ready() && Reaches(old(store.w), store.w) && IsReady(store.w, tx)
      ensures SentHash(old(store.w), store.w, tx.txId, tx.attempts[index].hash)
      ensures exists send :: SentIn(old(store.w), store.w, send) && send.txId == tx.txId
                             && send.hash == tx.attempts[index].hash && send.outcome == outcome
      ensures store.Called(false) && store.clashes == old(store.clashes)
    {
      hide WorldOk, Mirrors, Books, AllReserved, ClaimsOk, Reaches, IsImage, SentIn, Good;
      CopyIsGood(store.w, tx);
      SubmittedHasNonce(tx);
      outcome := node.Send(tx.attempts[index].raw, BySweep(tx, index));
      SeenStays(old(store.w), store.w, tx);
      assert SentIn(old(store.w), store.w, SendOf(tx, tx.txId, index, outcome));
    }

    method SettleRebroadcast(tx: TxRecord, index: nat, outcome: SendOutcome, newTxId: TxId, now: int) returns (r: Swept)
      requires Ready() && IsReady(store.w, tx) && index < |tx.attempts| && tx.attempts[index].raw.Bytes?
      modifies store
      ensures Ready() && Reaches(old(store.w), store.w) && (r.Done? || r.Threw?)
      ensures r.Done? ==> RebroadcastSettled(store.w, tx, index, outcome, newTxId, now)
      ensures store.Onward(r.Threw?)
    {
      hide WorldOk, Mirrors, Books, AllReserved, ClaimsOk, Reaches, IsImage, Image, RefusedAs;
      ReachesItself(store.w);
      var attempt := tx.attempts[index];
      if MayBeTaken(outcome) {
        if attempt.rejected.None? && attempt.acceptedAt.Some? { return Done; }
        r := MarkTakenAgain(tx, index, now);
        return;
      }
      if outcome.Rejected? {
        r := Refuse(tx, index, outcome.message, newTxId, now);
        return;
      }
      if outcome.Underpriced? && !tx.needsBump {
        BumpNeededImage(tx);
        var saved := Save(tx.(needsBump := true), tx, BumpNeeded);
        return if saved.Some? then Done else Threw;
      }
      // short of funds, the signer is paused; a nonce too low is settled by the next walk
      return Done;
    }

    method MarkTakenAgain(tx: TxRecord, index: nat, now: int) returns (r: Swept)
      requires Ready() && Seen(store.w, tx) && Enabled(Event.Rebroadcast(index, now), tx)
      modifies store
      ensures Ready() && Reaches(old(store.w), store.w) && (r.Done? || r.Threw?)
      ensures r.Done? ==> Saved(store.w, tx, Event.Rebroadcast(index, now))
      ensures store.Onward(r.Threw?)
    {
      hide WorldOk, Mirrors, Books, AllReserved, ClaimsOk, Reaches, IsImage, Image;
      var attempt := tx.attempts[index];
      var attempts := TakenAgainAll(tx.attempts, attempt, now);
      var rest := if attempt.rejected.None? then tx else tx.(needsBump := false, feeCapReached := false);
      RebroadcastImage(tx, index, now);
      var saved := Save(rest.(attempts := attempts), tx, Event.Rebroadcast(index, now));
      return if saved.Some? then Done else Threw;
    }

    method MarkMined(tx: TxRecord, receipt: Receipt, head: nat, settings: Settings, now: int) returns (r: Swept)
      requires Ready() && Seen(store.w, tx) && tx.status == Submitted
      modifies store
      ensures Ready() && Reaches(old(store.w), store.w) && (r.Done? || r.Threw?)
      ensures r.Done? ==> Saved(store.w, tx, MinedSeen(receipt, now))
      ensures store.heard == old(store.heard) && store.lates == old(store.lates)
      ensures store.Onward(r.Threw?)
    {
      hide WorldOk, Mirrors, Books, AllReserved, ClaimsOk, Reaches, IsImage, Image;
      ghost var e := MinedSeen(receipt, now);
      var attempts := MarkAccepted(tx.attempts, receipt.hash, now);
      var retired := tx.retiredAccepted || receipt.hash !in Hashes(tx.attempts);
      var rest := tx.(nonceUsedAtBlock := None, nonceUsedAt := None, needsBump := false, lookupFrom := None);
      MinedImage(tx, receipt, now);
      var mined := Save(WithStatus(rest, Status.Mined, now).(
                        mined := Some(receipt), attempts := attempts, retiredAccepted := retired), tx, e);
      if mined.None? { return Threw; }
      if head - receipt.blockNumber + 1 >= settings.confirmations {
        ghost var before := store.w;
        IsMined(tx, receipt, now);
        r := Confirm(mined.value, now);
        ReachesTransitively(old(store.w), before, store.w);
        SavedStays(before, store.w, tx, e);
        return;
      }
      return Done;
    }

    method Confirm(tx: TxRecord, now: int) returns (r: Swept)
      requires Ready() && Seen(store.w, tx) && tx.status == Status.Mined
      modifies store
      ensures Ready() && Reaches(old(store.w), store.w) && (r.Done? || r.Threw?)
      ensures r.Done? ==> Saved(store.w, tx, BecameConfirmed(now))
      ensures store.heard == old(store.heard) && store.lates == old(store.lates)
      ensures store.Onward(r.Threw?)
    {
      hide WorldOk, Mirrors, Books, AllReserved, ClaimsOk, Reaches, IsImage, Image;
      ConfirmedImage(tx, now);
      var saved := Save(WithStatus(tx, Confirmed, now), tx, BecameConfirmed(now));
      return if saved.Some? then Done else Threw;
    }

    /** No receipt, or one from another block than the saved one, takes the status back to Submitted; then the first attempt
        with that hash and bytes is sent. A receipt `confirmations` deep confirms. */
    method CheckMined(tx: TxRecord, head: nat, settings: Settings, newTxId: TxId, now: int)
      returns (r: Swept, receipt: Option<Receipt>)
      requires Ready() && Seen(store.w, tx) && tx.status == Status.Mined
      modifies store
      ensures Ready() && Reaches(old(store.w), store.w) && (r.Done? || r.Threw?) && tx.mined.Some?
      ensures r.Done? && !StillMined(tx, receipt) ==>
                && Saved(store.w, tx, Reorged(now))
                && (HasMinedBytes(tx) ==> SentHash(old(store.w), store.w, tx.txId, tx.mined.value.hash))
      ensures r.Done? && StillMined(tx, receipt) && head - tx.mined.value.blockNumber + 1 >= settings.confirmations ==>
                Saved(store.w, tx, BecameConfirmed(now))
      ensures store.Onward(r.Threw?)
      ensures old(store.heard) + [ReceiptOf(tx.mined.value.hash, receipt)] <= store.heard
    {
      hide WorldOk, Mirrors, Books, AllReserved, ClaimsOk, Reaches, IsImage, Image, Good;
      CopyIsGood(store.w, tx);
      MinedFacts(tx);
      ReachesItself(store.w);
      var mined := tx.mined.value;
      receipt := node.GetReceipt(mined.hash);
      if !receipt.Some? || receipt.value.blockHash != mined.blockHash {
        r := Resubmit(tx, newTxId, now);
        return;
      }
      r := Done;
      if head - mined.blockNumber + 1 >= settings.confirmations {
        r := Confirm(tx, now);
      }
    }

    /** Submitted again, with the mined bytes if the record has them. */
    method Resubmit(tx: TxRecord, newTxId: TxId, now: int) returns (r: Swept)
      requires Ready() && Seen(store.w, tx) && tx.status == Status.Mined && tx.mined.Some? && tx.lookupFrom.None?
      modifies store
      ensures Ready() && Reaches(old(store.w), store.w) && (r.Done? || r.Threw?)
      ensures r.Done? ==>
                && Saved(store.w, tx, Reorged(now))
                && (HasMinedBytes(tx) ==> SentHash(old(store.w), store.w, tx.txId, tx.mined.value.hash))
      ensures store.Onward(r.Threw?)
    {
      hide WorldOk, Mirrors, Books, AllReserved, ClaimsOk, Reaches, IsImage, Image, Good, SentHash, Seen;
      var mined := tx.mined.value;
      ReorgedImage(tx, now);
      var saved := Save(WithStatus(tx.(mined := None), Submitted, now), tx, Reorged(now));
      if saved.None? { return Threw; }
      ReorgedFacts(tx, now);
      var bytes := FirstIndex(tx.attempts, (a: Attempt) => a.hash == mined.hash && a.raw.Bytes?);
      r := Done;
      if bytes.Some? {
        ghost var before := store.w;
        r := SendBack(saved.value, bytes.value, newTxId, now);
        SentHashAfter(old(store.w), before, store.w, tx.txId, mined.hash);
        ReachesTransitively(old(store.w), before, store.w);
        SavedStays(before, store.w, tx, Reorged(now));
      }
    }

    method SendBack(tx: TxRecord, index: nat, newTxId: TxId, now: int) returns (r: Swept)
      requires Ready() && IsReady(store.w, tx) && index < |tx.attempts| && tx.attempts[index].raw.Bytes?
      modifies store
      ensures Ready() && Reaches(old(store.w), store.w) && (r.Done? || r.Threw?)
      ensures SentHash(old(store.w), store.w, tx.txId, tx.attempts[index].hash)
      ensures store.Onward(r.Threw?)
    {
      hide WorldOk, Mirrors, Books, AllReserved, ClaimsOk, Reaches, IsImage, RebroadcastSettled, SentHash;
      var outcome: SendOutcome;
      r, outcome := Rebroadcast(tx, index, newTxId, now);
    }

    method FlagFeeCap(tx: TxRecord) returns (flagged: Option<TxRecord>)
      requires Ready() && IsReady(store.w, tx)
      modifies store
      ensures Ready() && Reaches(old(store.w), store.w)
      ensures flagged.Some? ==>
                && IsReady(store.w, flagged.value) && flagged.value.txId == tx.txId
                && flagged.value == tx.(feeCapReached := true, version := flagged.value.version)
      ensures store.Onward(flagged.None?)
    {
      hide WorldOk, Mirrors, Books, AllReserved, ClaimsOk, Reaches, IsImage, Image;
      ReachesItself(store.w);
      if tx.feeCapReached { return Some(tx); }
      FeeCapImage(tx);
      flagged := Save(tx.(feeCapReached := true), tx, FeeCapFlagged);
      SavedIsApplied(FeeCapFlagged, tx);
    }

    method FlagRetiredHashesFull(tx: TxRecord) returns (flagged: Option<TxRecord>)
      requires Ready() && IsReady(store.w, tx)
      modifies store
      ensures Ready() && Reaches(old(store.w), store.w)
      ensures flagged.Some? ==>
                && IsReady(store.w, flagged.value) && flagged.value.txId == tx.txId
                && flagged.value == tx.(retiredHashesFull := true, version := flagged.value.version)
      ensures store.Onward(flagged.None?)
    {
      hide WorldOk, Mirrors, Books, AllReserved, ClaimsOk, Reaches, IsImage, Image;
      ReachesItself(store.w);
      if tx.retiredHashesFull { return Some(tx); }
      RetiredFullImage(tx);
      flagged := Save(tx.(retiredHashesFull := true), tx, RetiredFullFlagged);
      SavedIsApplied(RetiredFullFlagged, tx);
    }

    /** What becomes of a replacement once the node answered. */
    method AfterReplacement(tx: TxRecord, outcome: SendOutcome, newTxId: TxId, now: int) returns (r: Swept)
      requires Ready() && IsReady(store.w, tx) && tx.attempts != []
      modifies store
      ensures Ready() && Reaches(old(store.w), store.w) && (r.Done? || r.Threw?)
      ensures r.Done? ==> ReplacementSettled(store.w, tx, outcome, newTxId, now)
      ensures store.Onward(r.Threw?)
    {
      hide WorldOk, Mirrors, Books, AllReserved, ClaimsOk, Reaches, IsImage, Image, Enabled,
           RefusedAs;
      ReachesItself(store.w);
      var hash := LatestHash(tx);
      assert Hashes(tx.attempts)[|tx.attempts| - 1] == hash;
      if MayBeTaken(outcome) {
        ReplacementImages(tx, hash, "", false, now);
        var saved := Save(tx.(feeCapReached := false, attempts := MarkAccepted(tx.attempts, hash, now)), tx,
                          ReplacementTaken(hash, now));
        return if saved.Some? then Done else Threw;
      }
      if outcome.NonceTooLow? { return Done; }
      if outcome.Rejected? {
        r := Refuse(tx, |tx.attempts| - 1, outcome.message, newTxId, now);
        return;
      }
      var message := outcome.message;
      ReplacementImages(tx, hash, message, outcome.Underpriced?, now);
      var saved := Save(tx.(attempts := MarkRejected(tx.attempts, hash, message),
                            needsBump := tx.needsBump || outcome.Underpriced?), tx,
                        ReplacementRefused(hash, message, outcome.Underpriced?));
      return if saved.Some? then Done else Threw;
    }

    /** Past the limit of stored attempts the oldest refused one goes, and only its hash stays. */
    method DropOldest(tx: TxRecord) returns (kept: seq<Attempt>, retired: seq<Hash>, retiredAccepted: bool)
      requires |tx.attempts| >= MAX_STORED_ATTEMPTS ==> DropIndex(tx.attempts).Some?
      ensures kept == Kept(tx) && retired == RetiredWith(tx) && retiredAccepted == RetiredAcceptedWith(tx)
    {
      kept, retired, retiredAccepted := tx.attempts, tx.retiredHashes, tx.retiredAccepted;
      if |kept| >= MAX_STORED_ATTEMPTS {
        var drop := DropIndex(kept).value;
        var dropped := kept[drop];
        if dropped.acceptedAt.Some? { retiredAccepted := true; }
        kept := RemoveAt(kept, drop);
        if dropped.hash !in Hashes(kept) && dropped.hash !in retired { retired := retired + [dropped.hash]; }
      }
    }

    /** Makes room, signs at these fees, saves, and only then sends. */
    method SignAndSend(tx: TxRecord, fees: Fees, newTxId: TxId, now: int, ghost estimate: Fees, ghost cap: Fees)
      returns (r: Swept)
      requires Ready() && IsReady(store.w, tx) && Decide(tx, estimate, cap) == Sign(fees)
      modifies store
      ensures Ready() && Reaches(old(store.w), store.w) && (r.Done? || r.Threw?)
      ensures r.Done? ==> SignedAs(old(store.w), store.w, tx, fees, estimate, cap)
      ensures store.Onward(r.Threw?)
    {
      hide WorldOk, Mirrors, Books, AllReserved, ClaimsOk, Reaches, IsImage, Image, Decide, MakeRoom, Kept,
           RetiredWith, RetiredAcceptedWith, DropIndex;
      SigningIsLimited(tx, estimate, cap);
      var kept, retired, retiredAccepted := DropOldest(tx);
      var attempt := SignAttempt(fees, now);
      ghost var e := Replaced(estimate, cap, attempt);
      ReplacedImage(tx, estimate, cap, attempt);
      var room := StripForRoom(kept);
      var saved := Save(tx.(needsBump := false, attempts := room + [attempt], retiredHashes := retired,
                            retiredAccepted := retiredAccepted), tx, e);
      if saved.None? { return Threw; }
      ReplacedFacts(tx, estimate, cap, attempt);
      ghost var before := store.w;
      r := SendReplacement(saved.value, newTxId, now);
      SentHashAfter(old(store.w), before, store.w, tx.txId, attempt.hash);
      ReachesTransitively(old(store.w), before, store.w);
      SavedStays(before, store.w, tx, e);
    }

    method SendReplacement(tx: TxRecord, newTxId: TxId, now: int) returns (r: Swept)
      requires Ready() && IsReady(store.w, tx) && tx.attempts != [] && tx.attempts[|tx.attempts| - 1].raw.Bytes?
      modifies store
      ensures Ready() && Reaches(old(store.w), store.w) && (r.Done? || r.Threw?)
      ensures SentHash(old(store.w), store.w, tx.txId, LatestHash(tx))
      ensures store.Onward(r.Threw?)
    {
      hide WorldOk, Mirrors, Books, AllReserved, ClaimsOk, Reaches, IsImage, SentHash, ReplacementSettled;
      var outcome := SendStored(tx, |tx.attempts| - 1);
      ghost var sent := store.w;
      r := AfterReplacement(tx, outcome, newTxId, now);
      SentHashStays(old(store.w), sent, store.w, tx.txId, LatestHash(tx));
      ReachesTransitively(old(store.w), sent, store.w);
    }

    /** Carries out Decide's choice for the node's estimate: a new signature, stored bytes or a flag. If it sent nothing, the
        record is returned with its flags. */
    method Replace(tx0: TxRecord, cap: Fees, newTxId: TxId, now: int) returns (r: Swept, estimate: Fees)
      requires Ready() && IsReady(store.w, tx0)
      modifies store
      ensures Ready() && Reaches(old(store.w), store.w) && !r.FailedAsUsed?
      ensures ReplacedAsDecided(old(store.w), store.w, tx0, estimate, cap, r)
      ensures store.Onward(r.Threw?)
      ensures old(store.heard) + [FeesAre(estimate)] <= store.heard
    {
      hide WorldOk, Mirrors, Books, AllReserved, ClaimsOk, Reaches, IsImage, Decide, SentHash, SignedAs;
      estimate := node.EstimateFees();
      var live := LiveIndex(tx0.attempts);
      if live.Some? {
        r := ReplaceLive(tx0, live.value, estimate, cap, newTxId, now);
        return;
      }
      ReachesItself(store.w);
      var tx := tx0;
      if estimate.maxFee > cap.maxFee {
        var flagged := FlagFeeCap(tx);
        if flagged.None? { return Threw, estimate; }
        tx := flagged.value;
      }
      ghost var before := store.w;
      r := ReplaceRefused(tx, estimate, cap, newTxId, now);
      SameDecision(tx0, tx, estimate, cap);
      FlaggedFirst(old(store.w), before, store.w, tx0, tx, estimate, cap, r);
      ReachesTransitively(old(store.w), before, store.w);
    }

    method ReplaceRefused(tx: TxRecord, estimate: Fees, cap: Fees, newTxId: TxId, now: int) returns (r: Swept)
      requires Ready() && IsReady(store.w, tx) && LiveIndex(tx.attempts).None?
      modifies store
      ensures Ready() && Reaches(old(store.w), store.w) && !r.FailedAsUsed?
      ensures ReplacedAsDecided(old(store.w), store.w, tx, estimate, cap, r)
      ensures store.Onward(r.Threw?)
    {
      hide WorldOk, Mirrors, Books, AllReserved, ClaimsOk, Reaches, IsImage, WithRoom, SentHash, SignedAs;
      var fees := ClampFees(estimate, cap);
      var blocking := Blocking(tx.attempts, fees, cap, |tx.attempts|);
      if blocking != [] {
        var top := FirstWithBytes(tx.attempts, blocking);
        if top.Some? {
          r := SendBack(tx, top.value, newTxId, now);
          return;
        }
        fees := ClampFees(tx.attempts[blocking[0]].fees, cap);
      }
      r := FindRoom(tx, fees, estimate, cap, newTxId, now);
    }

    method ReplaceLive(tx: TxRecord, live: nat, estimate: Fees, cap: Fees, newTxId: TxId, now: int) returns (r: Swept)
      requires Ready() && IsReady(store.w, tx) && LiveIndex(tx.attempts) == Some(live)
      modifies store
      ensures Ready() && Reaches(old(store.w), store.w) && !r.FailedAsUsed?
      ensures ReplacedAsDecided(old(store.w), store.w, tx, estimate, cap, r)
      ensures store.Onward(r.Threw?)
    {
      hide WorldOk, Mirrors, Books, AllReserved, ClaimsOk, Reaches, IsImage, WithRoom, BumpFees, SentHash, SignedAs;
      var bump := BumpFees(tx.attempts[live].fees, estimate, cap, DEFAULT_PRICE_BUMP_PERCENT);
      var latest := |tx.attempts| - 1;
      if bump.Bumped? && latest != live && !Raises(bump.fees, tx.attempts[latest].fees) {
        bump := BumpFees(tx.attempts[latest].fees, estimate, cap, DEFAULT_PRICE_BUMP_PERCENT);
      }
      if bump.CapTooLow? || Unrefused(tx.attempts) >= MAX_ATTEMPTS {
        var flagged := FlagFeeCap(tx);
        return if flagged.Some? then Unchanged(flagged.value) else Threw;
      }
      r := FindRoom(tx, bump.fees, estimate, cap, newTxId, now);
    }

    /** The size limits, looked at only once something is to be signed. */
    method FindRoom(tx: TxRecord, fees: Fees, ghost estimate: Fees, ghost cap: Fees, newTxId: TxId, now: int)
      returns (r: Swept)
      requires Ready() && IsReady(store.w, tx) && Decide(tx, estimate, cap) == WithRoom(tx, fees)
      modifies store
      ensures Ready() && Reaches(old(store.w), store.w) && !r.FailedAsUsed?
      ensures ReplacedAsDecided(old(store.w), store.w, tx, estimate, cap, r)
      ensures store.Onward(r.Threw?)
    {
      hide WorldOk, Mirrors, Books, AllReserved, ClaimsOk, Reaches, IsImage, Decide, SentHash, SignedAs;
      if |tx.attempts| >= MAX_STORED_ATTEMPTS {
        if DropIndex(tx.attempts).None? {
          var flagged := FlagFeeCap(tx);
          return if flagged.Some? then Unchanged(flagged.value) else Threw;
        }
        if |tx.retiredHashes| >= MAX_RETIRED_HASHES {
          var flagged := FlagRetiredHashesFull(tx);
          return if flagged.Some? then Unchanged(flagged.value) else Threw;
        }
      }
      r := SignAndSend(tx, fees, newTxId, now, estimate, cap);
    }

    /** One node is asked for each hash of a list, from where the walk takes up, in order: for all of them, up to the one
        that has a receipt, or up to where time ran out. */
    method LookUp(list: seq<Hash>, start: nat, from: nat) returns (walked: Walked, ghost at: nat)
      requires Ready()
      modifies store`heard, store`lates, store`w
      ensures Ready() && store.w == old(store.w)
      ensures Ends(walked, at, start, list, from)
      ensures store.heard == old(store.heard) + Asked(list, start, from, at, walked)
      ensures store.mishaps == old(store.mishaps) && store.clashes == old(store.clashes)
      ensures store.lates >= old(store.lates) && (walked.RanOut? ==> store.lates > old(store.lates))
    {
      hide WorldOk, Mirrors, Books, AllReserved, ClaimsOk, Reaches, NoReceipts, Piece, SkipTo;
      var index := start;
      NoPiece(list, start, from);
      for i := 0 to |list|
        invariant index == start + i && Ready() && store.w == old(store.w)
        invariant store.heard == old(store.heard) + NoReceipts(Piece(list, start, from, start + i))
        invariant store.lates == old(store.lates)
      {
        index := index + 1;
        if index - 1 >= from {
          var late := node.Late();
          if late {
            walked, at := RanOut(index - 1), index - 1;
            return;
          }
          var receipt := node.GetReceipt(list[i]);
          if receipt.Some? {
            walked, at := Came(receipt.value), start + i;
            return;
          }
          PieceNext(list, start, from, i);
          NoReceiptsNext(Piece(list, start, from, start + i), list[i]);
        } else {
          PieceSkips(list, start, from, i);
        }
      }
      walked, at := WentThrough, start + |list|;
    }

    /** Every URL is asked for each hash of a list, from where the walk takes up. What went through, or as far as time
        allowed, was denied by every URL. */
    method AskAll(tx: TxRecord, list: seq<Hash>, start: nat, from: nat, ghost k: nat) returns (walked: Walked)
      requires Ready() && Asks(store.w, k, tx)
      modifies store
      ensures Ready() && Reaches(old(store.w), store.w) && Asks(store.w, k, tx)
      ensures walked.RanOut? ==> start <= walked.index < start + |list| && from <= walked.index
      ensures walked.RanOut? ==>
                store.w.sweeps[k].denied == old(store.w).sweeps[k].denied + Piece(list, start, from, walked.index)
      ensures walked.WentThrough? ==>
                store.w.sweeps[k].denied == old(store.w).sweeps[k].denied + Piece(list, start, from, start + |list|)
      ensures store.Onward(false)
      ensures walked.RanOut? ==> store.lates > old(store.lates)
      ensures !walked.RanOut? && !walked.WentThrough? ==> SaidOf(list, walked, old(store.heard), store.heard)
    {
      hide WorldOk, Mirrors, Books, AllReserved, ClaimsOk, Reaches, IsImage, SaidOf, Verdict, Piece, SkipTo;
      ReachesItself(store.w);
      NoPiece(list, start, from);
      var index := start;
      for i := 0 to |list|
        invariant index == start + i
        invariant Ready() && Reaches(old(store.w), store.w) && Asks(store.w, k, tx)
        invariant store.w.sweeps[k].denied == old(store.w).sweeps[k].denied + Piece(list, start, from, start + i)
        invariant store.Onward(false) && store.mishaps == old(store.mishaps)
      {
        index := index + 1;
        if index - 1 >= from {
          var late := node.Late();
          if late { return RanOut(index - 1); }
          var found, answers := AskFor(tx, list[i], old(store.w), k);
          if !found.NoReceipt? { LastSaid(list, i, answers, old(store.heard), store.heard); }
          if found.FoundReceipt? { return Came(found.receipt); }
          if found.Unanswered? { return NoAnswer; }
          PieceNext(list, start, from, i);
        } else {
          PieceSkips(list, start, from, i);
        }
      }
      return WentThrough;
    }

    method AskFor(tx: TxRecord, hash: Hash, ghost from: World, ghost k: nat) returns (found: Found, answers: seq<UrlAnswer>)
      requires Ready() && Asks(store.w, k, tx) && Reaches(from, store.w)
      modifies store
      ensures Ready() && Reaches(from, store.w) && Asks(store.w, k, tx)
      ensures found.NoReceipt? ==> store.w.sweeps[k].denied == old(store.w).sweeps[k].denied + [hash]
      ensures |answers| == node.urls && found == Verdict(answers) && store.heard == old(store.heard) + [UrlsSaid(hash, answers)]
      ensures store.lates == old(store.lates) && store.mishaps == old(store.mishaps) && store.clashes == old(store.clashes)
    {
      hide WorldOk, Mirrors, Books, AllReserved, ClaimsOk, Reaches, IsImage;
      found, answers := node.FindReceipt(hash, k);
      SeenStays(old(store.w), store.w, tx);
      ReachesTransitively(from, old(store.w), store.w);
    }

    /** Saves the position with what was asked so far as the ghost part of the event; the status does not change. */
    method StopLookup(tx: TxRecord, walk: Walk, index: nat, ghost asked: seq<Hash>, ghost k: nat) returns (r: Swept)
      requires Ready() && Seen(store.w, tx) && Enabled(WalkStopped(walk, index, asked), tx)
      requires Answered(store.w, WalkStopped(walk, index, asked), tx, Some(k))
      modifies store
      ensures Ready() && Reaches(old(store.w), store.w) && (r.Done? || r.Threw?) && SameSweep(old(store.w), store.w, k)
      ensures r.Done? ==> Saved(store.w, tx, WalkStopped(walk, index, asked))
      ensures store.heard == old(store.heard) && store.lates == old(store.lates)
      ensures store.Onward(r.Threw?)
    {
      hide WorldOk, Mirrors, Books, AllReserved, ClaimsOk, Reaches, IsImage, Image, Enabled;
      StoppedImage(tx, walk, index, asked);
      var saved := Save(tx.(lookupFrom := Some(Lookup(walk, index))), tx, WalkStopped(walk, index, asked), Some(k));
      return if saved.Some? then Done else Threw;
    }

    /** The rest of a receipts walk, over the retired hashes. One that gets through them without a receipt saves the sighting
        if there is none, and clears the walk otherwise. */
    method NoteUsed(tx: TxRecord, head: nat, from: nat, settings: Settings, now: int, ghost k: nat)
      returns (r: Swept, walked: Walked, ghost at: nat)
      requires Ready() && Seen(store.w, tx) && tx.status == Submitted && from == WalkStart(tx, Receipts)
      modifies store
      ensures Ready() && Reaches(old(store.w), store.w) && (r.Done? || r.Threw?) && !walked.NoAnswer?
      ensures r.Done? ==>
                && WalkSettled(store.w, tx, Receipts, walked, k, now)
                && (walked.WentThrough? ==> UsedNoted(store.w, tx, head, now))
      ensures Ends(walked, at, |tx.attempts|, Reverse(tx.retiredHashes), from)
      ensures store.heard == old(store.heard) + Asked(Reverse(tx.retiredHashes), |tx.attempts|, from, at, walked)
      ensures store.Onward(r.Threw?) && (walked.RanOut? ==> store.lates > old(store.lates))
    {
      hide WorldOk, Mirrors, Books, AllReserved, ClaimsOk, Reaches, IsImage, Image, NoReceipts, Piece;
      ReachesItself(store.w);
      r := Done;
      walked, at := LookUp(Reverse(tx.retiredHashes), |tx.attempts|, from);
      if walked.RanOut? {
        r := StopLookup(tx, Receipts, walked.index, [], k);
        return;
      }
      if walked.Came? {
        r := MarkMined(tx, walked.receipt, head, settings, now);
        return;
      }
      if tx.nonceUsedAtBlock.None? || tx.nonceUsedAt.None? {
        var sighted := if tx.nonceUsedAtBlock.Some? then tx.nonceUsedAtBlock else Some(head);
        SeenUsedImage(tx, head, now);
        var saved := Save(tx.(nonceUsedAtBlock := sighted, nonceUsedAt := Some(now), lookupFrom := None), tx,
                          NonceSeenUsed(head, now));
        r := if saved.Some? then Done else Threw;
      } else if tx.lookupFrom.Some? {
        EndedImage(tx);
        var saved := Save(tx.(lookupFrom := None), tx, WalkEnded);
        r := if saved.Some? then Done else Threw;
      }
    }

    /** The two lists of WalkHashes from `from` on; the second only if `from` is above 0. The denials of sweep `k` are at
        every point the part of WalkHashes between `from` and there. */
    method WalkAll(tx: TxRecord, from: nat, ghost k: nat) returns (walked: Walked)
      requires Ready() && Asks(store.w, k, tx) && store.w.sweeps[k].denied == []
      requires from == WalkStart(tx, AllUrls) && from <= WalkEnd(tx) <= |WalkHashes(tx)|
      modifies store
      ensures Ready() && Reaches(old(store.w), store.w) && Asks(store.w, k, tx)
      ensures walked.RanOut? ==>
                from <= walked.index < WalkEnd(tx) && store.w.sweeps[k] == Walker(tx, AskedUpTo(tx, walked.index))
      ensures walked.WentThrough? ==> store.w.sweeps[k] == Walker(tx, AskedUpTo(tx, WalkEnd(tx)))
      ensures store.Onward(false)
      ensures walked.RanOut? ==> store.lates > old(store.lates)
      ensures !walked.RanOut? && !walked.WentThrough? ==> SaidOf(WalkHashes(tx), walked, old(store.heard), store.heard)
    {
      hide ReceiptHashes, WalkStart, Reverse, Hashes, SkipTo, Piece, WalkHashes, WalkEnd, SaidOf;
      hide WorldOk, Mirrors, Books, AllReserved, ClaimsOk, Reaches, IsImage, Seen;
      WalkIsTwoLists(tx);
      var hashes, again := ReceiptHashes(tx), Reverse(Hashes(tx.attempts));
      walked := AskAll(tx, hashes, 0, from, k);
      WalkHas(tx);
      if !walked.RanOut? && !walked.WentThrough? {
        SaidOfMore(hashes, WalkHashes(tx), walked, old(store.heard), old(store.heard), store.heard, store.heard);
      }
      if from <= |hashes| {
        PieceOfFirst(hashes, again, from, if walked.RanOut? then walked.index else |hashes|);
      }
      if walked.WentThrough? && from > 0 {
        ghost var before, said := store.w, store.heard;
        walked := AskAll(tx, again, |hashes|, from, k);
        ReachesTransitively(old(store.w), before, store.w);
        if !walked.RanOut? && !walked.WentThrough? {
          SaidOfMore(again, WalkHashes(tx), walked, old(store.heard), said, store.heard, store.heard);
        }
        PieceOfBoth(hashes, again, from, if walked.RanOut? then walked.index else |hashes| + |again|, []);
      }
    }

    /** The walk that may fail the transaction. It does only if every URL denied every hash from where the walk took up to
        its end, the stored attempts a second time if it was resumed; cut short, it saves just as far as it was denied. */
    method WalkEveryUrl(tx: TxRecord, head: nat, from: nat, settings: Settings, now: int, ghost k: nat)
      returns (r: Swept, walked: Walked)
      requires Ready() && Asks(store.w, k, tx) && store.w.sweeps[k].denied == []
      requires tx.status == Submitted && ReadyToFail(tx, head, now, settings) && from == WalkStart(tx, AllUrls)
      modifies store
      ensures Ready() && Reaches(old(store.w), store.w) && !r.Unchanged?
      ensures r.Done? ==> WalkSettled(store.w, tx, AllUrls, walked, k, now) && !walked.WentThrough?
      ensures r.FailedAsUsed? ==> FailedAfterDenials(store.w, tx, head, now, settings, k)
      ensures store.Onward(r.Threw?)
      ensures walked.RanOut? ==> store.lates > old(store.lates)
      ensures walked.NoAnswer? || walked.Came? ==> SaidOf(WalkHashes(tx), walked, old(store.heard), store.heard)
    {
      hide WorldOk, Mirrors, Books, AllReserved, ClaimsOk, Reaches, IsImage, Image, Good, WalkEnd, WalkHashes, WalkStart,
           ReadyToFail, Saved, Seen;
      CopyIsGood(store.w, tx);
      ReachesItself(store.w);
      GoodWalk(tx);
      walked := WalkAll(tx, from, k);
      ghost var before, said := store.w, store.heard;
      match walked {
        case NoAnswer => r := Done;
        case Came(receipt) => r := MarkMined(tx, receipt, head, settings, now);
        case RanOut(index) => r := StopLookup(tx, AllUrls, index, AskedUpTo(tx, index), k);
        case WentThrough => r := FailAsUsed(tx, head, settings, now, AskedUpTo(tx, WalkEnd(tx)), k);
      }
      if walked.Came? {
        SaidOfMore(WalkHashes(tx), WalkHashes(tx), walked, old(store.heard), old(store.heard), said, store.heard);
      }
      if !walked.NoAnswer? { ReachesTransitively(old(store.w), before, store.w); }
    }

    method FailAsUsed(tx: TxRecord, head: nat, settings: Settings, now: int, ghost asked: seq<Hash>, ghost k: nat)
      returns (r: Swept)
      requires Ready() && Seen(store.w, tx) && Enabled(NonceUsedFailure(head, now, settings, asked), tx)
      requires Answered(store.w, NonceUsedFailure(head, now, settings, asked), tx, Some(k))
      modifies store
      ensures Ready() && Reaches(old(store.w), store.w) && (r.FailedAsUsed? || r.Threw?)
      ensures SameSweep(old(store.w), store.w, k)
      ensures r.FailedAsUsed? ==> Saved(store.w, tx, NonceUsedFailure(head, now, settings, asked))
      ensures store.heard == old(store.heard) && store.lates == old(store.lates)
      ensures store.Onward(r.Threw?)
    {
      hide WorldOk, Mirrors, Books, AllReserved, ClaimsOk, Reaches, IsImage, Image, Enabled;
      UsedImage(tx, head, now, settings, asked);
      var saved := Save(WithStatus(tx.(lookupFrom := None), Failed, now).(error := Some(NonceUsed)), tx,
                        NonceUsedFailure(head, now, settings, asked), Some(k));
      return if saved.Some? then FailedAsUsed else Threw;
    }

    /** One submitted transaction: looked up, failed as used only after a whole walk, replaced when it is stuck or was
        refused as underpriced, or sent again when the node does not know it. */
    method CheckSubmitted(tx: TxRecord, head: nat, settings: Settings, stuckAfter: int, cap: Fees, newTxId: TxId, now: int,
                          ghost k: nat)
      returns (r: Swept, walked: Walked, minedNonce: Option<nat>, pending: Pending, ghost at: nat)
      requires Ready() && Seen(store.w, tx) && tx.status == Submitted
      modifies store
      ensures Ready() && Reaches(old(store.w), store.w) && !r.Unchanged?
      ensures store.Onward(r.Threw?) && (walked.RanOut? ==> store.lates > old(store.lates))
      // a receipt, or running out of time
      ensures r.Done? ==> WalkSettled(store.w, tx, WalkOf(tx, head, now, settings), walked, k, now)
      // a used nonce, and only that, is noted or fails the transaction
      ensures tx.nonce.Some? && (minedNonce.None? ==> !walked.WentThrough? && !r.FailedAsUsed?)
      ensures r.Done? && walked.WentThrough? && minedNonce.value > tx.nonce.value ==> UsedNoted(store.w, tx, head, now)
      ensures r.FailedAsUsed? ==> minedNonce.value > tx.nonce.value && FailedAfterDenials(store.w, tx, head, now, settings, k)
      ensures r.Done? && minedNonce.Some? && minedNonce.value <= tx.nonce.value ==>
                PendingChecked(old(store.w), store.w, old(store.heard), store.heard, tx, minedNonce.value, stuckAfter, cap, now,
                               pending)
      // what it asked before
      ensures if ReadyToFail(tx, head, now, settings)
              then UrlsWalked(tx, old(store.heard), store.heard, minedNonce, walked)
              else ReceiptsWalked(tx, old(store.heard), store.heard, minedNonce, walked, at)
    {
      hide WorldOk, Mirrors, Books, AllReserved, ClaimsOk, Reaches, IsImage, Image, Good, WalkEnd, WalkHashes, PendingChecked,
           UrlsWalked, ReceiptsWalked, ReadyToFail, FailedAfterDenials, StoppedAfterDenials;
      BeginSweep(tx, k);
      ghost var begun := store.w;
      CopyIsGood(store.w, tx);
      SubmittedHasNonce(tx);
      at := 0;
      if ReadyToFail(tx, head, now, settings) {
        r, walked, minedNonce, pending := CheckByUrls(tx, head, settings, stuckAfter, cap, newTxId, now, k);
      } else {
        r, walked, minedNonce, pending, at := CheckByReceipts(tx, head, settings, stuckAfter, cap, newTxId, now, k);
      }
      ReachesTransitively(old(store.w), begun, store.w);
      if r.Done? && minedNonce.Some? && minedNonce.value <= tx.nonce.value {
        PendingAfter(old(store.w), begun, store.w, old(store.heard), old(store.heard), store.heard, tx, minedNonce.value,
                     stuckAfter, cap, now, pending);
      }
    }

    /** The first kind of walk: one node, the stored attempts before the nonce is read and the retired hashes after it. */
    method CheckByReceipts(tx: TxRecord, head: nat, settings: Settings, stuckAfter: int, cap: Fees, newTxId: TxId, now: int,
                           ghost k: nat)
      returns (r: Swept, walked: Walked, minedNonce: Option<nat>, pending: Pending, ghost at: nat)
      requires Ready() && Seen(store.w, tx) && tx.status == Submitted && tx.nonce.Some?
      modifies store
      ensures Ready() && Reaches(old(store.w), store.w) && (r.Done? || r.Threw?)
      ensures store.Onward(r.Threw?) && (walked.RanOut? ==> store.lates > old(store.lates))
      ensures r.Done? ==> WalkSettled(store.w, tx, Receipts, walked, k, now)
      ensures minedNonce.None? ==> !walked.WentThrough?
      ensures r.Done? && walked.WentThrough? && minedNonce.value > tx.nonce.value ==> UsedNoted(store.w, tx, head, now)
      ensures r.Done? && minedNonce.Some? && minedNonce.value <= tx.nonce.value ==>
                PendingChecked(old(store.w), store.w, old(store.heard), store.heard, tx, minedNonce.value, stuckAfter, cap, now,
                               pending)
      ensures ReceiptsWalked(tx, old(store.heard), store.heard, minedNonce, walked, at)
    {
      hide WorldOk, Mirrors, Books, AllReserved, ClaimsOk, Reaches, IsImage, Image, Good, NoReceipts, Piece, PendingChecked,
           Seen;
      ReachesItself(store.w);
      pending := Pending(false, tx, Fees(0, 0), false);
      var from := WalkStart(tx, Receipts);
      var attempts := Reverse(Hashes(tx.attempts));
      walked, at := LookUp(attempts, 0, from);
      minedNonce, r := None, Done;
      if walked.RanOut? {
        r := StopLookup(tx, Receipts, walked.index, [], k);
        FirstHalfWalked(tx, old(store.heard), store.heard, walked, at);
        return;
      }
      if walked.Came? {
        r := MarkMined(tx, walked.receipt, head, settings, now);
        FirstHalfWalked(tx, old(store.heard), store.heard, walked, at);
        return;
      }
      ghost var first := store.heard;
      var nonce := node.GetNonce();
      minedNonce := Some(nonce);
      ghost var read := store.heard;
      if nonce > tx.nonce.value {
        r, walked, at := NoteUsed(tx, head, from, settings, now, k);
        SecondHalfWalked(tx, old(store.heard), first, read, store.heard, nonce, walked, at);
      } else {
        r, pending := CheckPending(tx, nonce, stuckAfter, cap, newTxId, now);
        PendingWalked(tx, old(store.heard), read, store.heard, nonce);
        if r.Done? {
          PendingAfter(old(store.w), old(store.w), store.w, old(store.heard), read, store.heard, tx, nonce, stuckAfter, cap,
                       now, pending);
        }
      }
    }

    /** The second kind: the nonce is read, and if it is used every URL is asked. */
    method CheckByUrls(tx: TxRecord, head: nat, settings: Settings, stuckAfter: int, cap: Fees, newTxId: TxId, now: int,
                       ghost k: nat)
      returns (r: Swept, walked: Walked, minedNonce: Option<nat>, pending: Pending)
      requires Ready() && Asks(store.w, k, tx) && store.w.sweeps[k].denied == [] && tx.status == Submitted && tx.nonce.Some?
      requires ReadyToFail(tx, head, now, settings)
      modifies store
      ensures Ready() && Reaches(old(store.w), store.w) && !r.Unchanged? && minedNonce.Some?
      ensures store.Onward(r.Threw?) && (walked.RanOut? ==> store.lates > old(store.lates))
      ensures r.Done? ==> WalkSettled(store.w, tx, AllUrls, walked, k, now)
      ensures r.Done? && walked.WentThrough? ==> minedNonce.value <= tx.nonce.value
      ensures r.FailedAsUsed? ==> minedNonce.value > tx.nonce.value && FailedAfterDenials(store.w, tx, head, now, settings, k)
      ensures r.Done? && minedNonce.value <= tx.nonce.value ==>
                PendingChecked(old(store.w), store.w, old(store.heard), store.heard, tx, minedNonce.value, stuckAfter, cap, now,
                               pending)
      ensures UrlsWalked(tx, old(store.heard), store.heard, minedNonce, walked)
    {
      hide WorldOk, Mirrors, Books, AllReserved, ClaimsOk, Reaches, IsImage, Image, Good, PendingChecked, Seen, WalkHashes,
           ReadyToFail, FailedAfterDenials, StoppedAfterDenials, SaidOf;
      ReachesItself(store.w);
      walked, pending := WentThrough, Pending(false, tx, Fees(0, 0), false);
      var nonce := node.GetNonce();
      minedNonce := Some(nonce);
      ghost var read := store.heard;
      if nonce > tx.nonce.value {
        r, walked := WalkEveryUrl(tx, head, WalkStart(tx, AllUrls), settings, now, k);
        if walked.NoAnswer? || walked.Came? {
          SaidOfMore(WalkHashes(tx), WalkHashes(tx), walked, old(store.heard), read, store.heard, store.heard);
        }
      } else {
        r, pending := CheckPending(tx, nonce, stuckAfter, cap, newTxId, now);
        if r.Done? {
          PendingAfter(old(store.w), old(store.w), store.w, old(store.heard), read, store.heard, tx, nonce, stuckAfter, cap,
                       now, pending);
        }
      }
    }

    /** The sweep has the record from the page it read; it has asked nothing yet. */
    ghost method BeginSweep(tx: TxRecord, k: nat)
      requires Ready() && Seen(store.w, tx)
      modifies store`w
      ensures Ready() && Reaches(old(store.w), store.w) && Asks(store.w, k, tx) && store.w.sweeps[k].denied == []
    {
      hide WorldOk, Mirrors, Books, AllReserved, ClaimsOk, Reaches;
      store.Take(SweepReads(k, tx));
    }

    /** The nonce is not used: any sighting is forgotten. Then the transaction is replaced, exactly when it is the next to
        be mined and stuck or refused as underpriced; and when that sent nothing, or was not tried, its live signature is
        sent again if the node does not know it. */
    method CheckPending(tx0: TxRecord, minedNonce: nat, stuckAfter: int, cap: Fees, newTxId: TxId, now: int)
      returns (r: Swept, done: Pending)
      requires Ready() && Seen(store.w, tx0) && tx0.status == Submitted
      modifies store
      ensures Ready() && Reaches(old(store.w), store.w) && (r.Done? || r.Threw?)
      ensures r.Done? ==>
                PendingChecked(old(store.w), store.w, old(store.heard), store.heard, tx0, minedNonce, stuckAfter, cap, now, done)
      ensures store.Onward(r.Threw?)
    {
      hide WorldOk, Mirrors, Books, AllReserved, ClaimsOk, Reaches, IsImage, Good, Seen, Saved, Decide, SentHash, SignedAs,
           ReplacedAsDecided, UnknownSent, Told;
      r, done := Threw, Pending(false, tx0, Fees(0, 0), false);
      var current := ForgetSighting(tx0);
      if current.None? { return; }
      var tx := current.value;
      ghost var forgot, said := store.w, store.heard;
      CopyIsGood(store.w, tx);
      SubmittedHasNonce(tx);
      var stuck := now - LastSentAt(tx.attempts) >= stuckAfter;
      var tried, estimate, present := false, Fees(0, 0), tx;
      if Some(minedNonce) == tx.nonce && (tx.needsBump || stuck) {
        tried := true;
        r, estimate := Replace(tx, cap, newTxId, now);
        done := Pending(true, tx, estimate, false);
        ToldFirst(said, store.heard, FeesAre(estimate));
        ToldStays(old(store.heard), said, store.heard, store.heard, FeesAre(estimate));
        ReachesTransitively(old(store.w), forgot, store.w);
        ForgottenStays(forgot, store.w, tx0);
        ReplacedAfter(old(store.w), forgot, store.w, tx, estimate, cap, r);
        if !r.Unchanged? {
          if r.Done? { DoneIsSent(old(store.w), store.w, tx, estimate, cap); }
          return;
        }
        UnchangedIsFlagged(old(store.w), store.w, tx, estimate, cap, r);
        present := r.tx;
      }
      ghost var before, told := store.w, store.heard;
      var known;
      r, known := SendUnknown(present, newTxId, now);
      done := Pending(tried, tx, estimate, known);
      ForgottenStays(before, store.w, tx0);
      ReachesTransitively(old(store.w), before, store.w);
      UnknownSentAfter(old(store.w), before, store.w, present, tx, known, r);
      if LiveIndex(tx.attempts).Some? {
        ToldStays(old(store.heard), told, store.heard, store.heard, KnownIs(LiveHash(tx), known));
      }
      if tried { ToldStays(old(store.heard), old(store.heard), told, store.heard, FeesAre(estimate)); }
    }

    /** Clears sighting and walk, if there are any. */
    method ForgetSighting(tx: TxRecord) returns (current: Option<TxRecord>)
      requires Ready() && Seen(store.w, tx) && tx.status == Submitted
      modifies store
      ensures Ready() && Reaches(old(store.w), store.w)
      ensures current.Some? ==>
                && IsReady(store.w, current.value) && current.value.txId == tx.txId
                && Forgot(tx, current.value) && SightingForgotten(store.w, tx)
      ensures store.Onward(current.None?)
    {
      hide WorldOk, Mirrors, Books, AllReserved, ClaimsOk, Reaches, IsImage, Image, Apply, Saved;
      ReachesItself(store.w);
      if tx.nonceUsedAtBlock.None? && tx.nonceUsedAt.None? && tx.lookupFrom.None? { return Some(tx); }
      SeenFreeImage(tx);
      SeenFreeApplies(tx);
      current := Save(tx.(nonceUsedAtBlock := None, nonceUsedAt := None, lookupFrom := None), tx, NonceSeenFree);
    }

    /** Sends the live attempt's bytes if there is one and the node does not know its hash. */
    method SendUnknown(tx: TxRecord, newTxId: TxId, now: int) returns (r: Swept, known: bool)
      requires Ready() && IsReady(store.w, tx)
      modifies store
      ensures Ready() && Reaches(old(store.w), store.w) && (r.Done? || r.Threw?)
      ensures UnknownSent(old(store.w), store.w, tx, known)
      ensures store.Onward(r.Threw?)
      ensures LiveIndex(tx.attempts).Some? ==> Told(old(store.heard), store.heard, KnownIs(LiveHash(tx), known))
    {
      hide WorldOk, Mirrors, Books, AllReserved, ClaimsOk, Reaches, IsImage, Good, SentHash;
      ReachesItself(store.w);
      CopyIsGood(store.w, tx);
      var live := LiveIndex(tx.attempts);
      if live.None? { return Done, false; }
      known := node.IsKnown(tx.attempts[live.value].hash);
      ghost var told := store.heard;
      ToldFirst(old(store.heard), told, KnownIs(LiveHash(tx), known));
      if known { return Done, true; }
      LiveHasBytes(tx, live.value);
      r := SendBack(tx, live.value, newTxId, now);
      ToldStays(old(store.heard), old(store.heard), told, store.heard, KnownIs(LiveHash(tx), known));
    }
  }

  lemma SeenFreeApplies(tx: TxRecord)
    requires Enabled(NonceSeenFree, tx)
    ensures var n := Apply(NonceSeenFree, tx);
            n.status == Submitted && n.lookupFrom.None? && n.txId == tx.txId && Forgot(tx, n)
  {
    SeenFreeImage(tx);
    SavedIsApplied(NonceSeenFree, tx);
  }

  lemma ForgottenStays(w: World, u: World, tx: TxRecord)
    requires WorldOk(w) && Reaches(w, u) && SightingForgotten(w, tx)
    ensures SightingForgotten(u, tx)
  {
    hide WorldOk, Reaches, Saved;
    if tx.nonceUsedAtBlock.Some? || tx.nonceUsedAt.Some? || tx.lookupFrom.Some? { SavedStays(w, u, tx, NonceSeenFree); }
  }

  lemma IsMined(tx: TxRecord, receipt: Receipt, now: int)
    requires Enabled(MinedSeen(receipt, now), tx)
    ensures Apply(MinedSeen(receipt, now), tx).status == Status.Mined
  {
    hide Image;
    Columns(MinedSeen(receipt, now), tx);
  }

  lemma MinedFacts(tx: TxRecord)
    requires Good(tx) && tx.status == Status.Mined
    ensures tx.mined.Some? && tx.lookupFrom.None?
  {
  }

  lemma ReorgedFacts(tx: TxRecord, now: int)
    requires Enabled(Reorged(now), tx)
    ensures var n := Apply(Reorged(now), tx);
            n.status == Submitted && n.attempts == tx.attempts && n.lookupFrom == tx.lookupFrom && n.txId == tx.txId
  {
    hide Image;
    Columns(Reorged(now), tx);
  }

  lemma ReplacedFacts(tx: TxRecord, estimate: Fees, cap: Fees, a: Attempt)
    requires Enabled(Replaced(estimate, cap, a), tx)
    ensures var n := Apply(Replaced(estimate, cap, a), tx);
            && n.txId == tx.txId && n.status == Submitted && n.lookupFrom.None? && n.attempts != []
            && n.attempts[|n.attempts| - 1] == a && a.raw.Bytes?
  {
    hide Image, Decide, MakeRoom, Kept;
    Columns(Replaced(estimate, cap, a), tx);
  }

  lemma WalkIsTwoLists(tx: TxRecord)
    ensures WalkHashes(tx) == ReceiptHashes(tx) + Reverse(Hashes(tx.attempts))
    ensures WalkEnd(tx) == if WalkStart(tx, AllUrls) > 0 then |WalkHashes(tx)| else |ReceiptHashes(tx)|
    ensures WalkHashes(tx)[..|ReceiptHashes(tx)|] == ReceiptHashes(tx)
  {
  }

  lemma WalkHas(tx: TxRecord)
    ensures forall h :: h in ReceiptHashes(tx) ==> h in WalkHashes(tx)
    ensures forall h :: h in Reverse(Hashes(tx.attempts)) ==> h in WalkHashes(tx)
  {
  }

  lemma GoodWalk(tx: TxRecord)
    requires Good(tx)
    ensures WalkStart(tx, AllUrls) <= WalkEnd(tx) <= |WalkHashes(tx)|
  {
  }

  lemma LiveHasBytes(tx: TxRecord, i: nat)
    requires Good(tx) && i < |tx.attempts| && tx.attempts[i].rejected.None?
    ensures tx.attempts[i].raw.Bytes?
  {
  }
}
