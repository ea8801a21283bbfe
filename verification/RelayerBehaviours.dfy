/** Whole behaviours of the relayer: any interleaving of submissions, signer runs, sweeps and crashes. */
module RelayerBehaviours {
  import opened Wrappers
  import opened RelayerRecords
  import opened RelayerEvents
  import opened RelayerInvariants
  import opened RelayerRuns
  import opened RelayerNonces
  import opened RelayerProtocol
  import opened RelayerSafety

  predicate Nothing(w: World) {
    && w.lives == map[] && w.runs == map[] && w.sweeps == map[] && w.sends == [] && w.denials == [] && w.fate == map[]
  }

  ghost predicate IsBehaviour(ws: seq<World>, steps: seq<Step>) {
    && |ws| == |steps| + 1 && Nothing(ws[0])
    && forall i :: 0 <= i < |steps| ==> CanStep(ws[i], steps[i]) && ws[i + 1] == Do(ws[i], steps[i])
  }

  lemma NothingIsOk(w: World)
    requires Nothing(w)
    ensures WorldOk(w) && Empty(TableOf(w))
  {
  }

  lemma {:induction false} EveryWorldIsOk(ws: seq<World>, steps: seq<Step>, i: nat)
    requires IsBehaviour(ws, steps) && i < |ws|
    ensures WorldOk(ws[i])
    decreases i
  {
    hide CanStep, Do, WorldOk;
    if i == 0 {
      NothingIsOk(ws[0]);
    } else {
      EveryWorldIsOk(ws, steps, i - 1);
      assert CanStep(ws[i - 1], steps[i - 1]) && ws[i] == Do(ws[i - 1], steps[i - 1]);
      WorldStep(ws[i - 1], steps[i - 1]);
    }
  }

  function Tables(ws: seq<World>): (r: seq<Table>)
    ensures |r| == |ws| && forall i :: 0 <= i < |ws| ==> r[i] == TableOf(ws[i])
  {
    seq(|ws|, i requires 0 <= i < |ws| => TableOf(ws[i]))
  }

  ghost function Moves(ws: seq<World>, steps: seq<Step>): (r: seq<Move>)
    requires IsBehaviour(ws, steps)
    ensures |r| == |steps| && forall i :: 0 <= i < |steps| ==> r[i] == MoveOf(ws[i], steps[i])
  {
    seq(|steps|, i requires 0 <= i < |steps| => MoveOf(ws[i], steps[i]))
  }

  /** The relayer refines the nonce table: seen through TableOf, its behaviour is a history of moves. */
  lemma BehaviourIsHistory(ws: seq<World>, steps: seq<Step>)
    requires IsBehaviour(ws, steps)
    ensures IsHistory(Tables(ws), Moves(ws, steps))
  {
    hide CanStep, Do, CanMove, After, LivesOk, RunsOk, Ok, SendsRecorded, NoncesOk, TableOf;
    NothingIsOk(ws[0]);
    forall i | 0 <= i < |steps|
      ensures CanMove(Tables(ws)[i], Moves(ws, steps)[i])
           && Tables(ws)[i + 1] == After(Tables(ws)[i], Moves(ws, steps)[i])
    {
      EveryWorldIsOk(ws, steps, i);
      assert CanStep(ws[i], steps[i]) && ws[i + 1] == Do(ws[i], steps[i]);
      StepMoves(ws[i], steps[i]);
    }
  }

  // The theorems about nonces

  predicate HoldsNonce(w: World, id: TxId, slot: Slot) {
    Exists(w, id) && Now(w, id).status != Failed && Now(w, id).pair == slot.pair && Now(w, id).nonce == Some(slot.nonce)
  }

  lemma StandingIsHolding(w: World, id: TxId, slot: Slot)
    requires WorldOk(w)
    ensures HoldsNonce(w, id, slot) <==> Keeps(TableOf(w), id) && At(TableOf(w).all[id], slot)
  {
    hide Good, IsLife, Ok, RunsOk, SendsRecorded, NoncesOk;
    if Exists(w, id) {
      StandingFacts(w, id);
      FailedHasError(Now(w, id));
    }
  }

  lemma FailedHasError(tx: TxRecord)
    requires Good(tx)
    ensures tx.status == Failed ==> tx.error.Some?
  {
  }

  /** In every world of every behaviour, a nonce ever handed out is below its counter, and exactly one of these is true of
      it: one record that has not failed holds it, and no other; its transaction gave it up, and the only send ever made
      at it was that transaction's and was answered nonce too low; its record failed as used by the chain; or the filler
      that had it was refused. The last three are for good. */
  lemma EveryNonceIsAccountedFor(ws: seq<World>, steps: seq<Step>, i: nat, j: nat, slot: Slot)
    requires IsBehaviour(ws, steps) && i <= j < |ws| && slot in ws[i].fate
    ensures var w := ws[j];
            && slot in w.fate && slot.nonce < NextNonceOf(w.counter, slot.pair)
            && (!ws[i].fate[slot].Held? ==> w.fate[slot] == ws[i].fate[slot])
            && (forall id :: w.fate[slot] == Held(id) <==> HoldsNonce(w, id, slot))
            && match w.fate[slot]
               case Held(id) => HoldsNonce(w, id, slot)
               case GivenUp(id) => AnsweredTooLow(w.sends, slot, id)
               case ReportedUsed(id) => FailedWith(w, id, slot, NonceUsed)
               case FillerRefused(id) =>
                 exists reason :: FailedWith(w, id, slot, Refused(reason)) && Now(w, id).kind == Filler
  {
    hide Ok, IsHistory, IsBehaviour, HoldsNonce, WorldOk;
    var t := TableOf(ws[j]);
    BehaviourIsHistory(ws, steps);
    GivenUpForGood(Tables(ws), Moves(ws, steps), i, j, slot);
    EveryWorldIsOk(ws, steps, j);
    WorldTableIsOk(ws[j]);
    forall id ensures t.fate[slot] == Held(id) <==> HoldsNonce(ws[j], id, slot) {
      StandingIsHolding(ws[j], id, slot);
      HeldByExactlyOne(t, slot, id);
    }
    FateStands(ws[j], slot);
  }

  predicate FailedWith(w: World, id: TxId, slot: Slot, why: TxError) {
    && Exists(w, id) && Now(w, id).status == Failed && Now(w, id).error == Some(why)
    && Now(w, id).pair == slot.pair && Now(w, id).nonce == Some(slot.nonce)
  }

  lemma WorldTableIsOk(w: World)
    requires WorldOk(w)
    ensures Ok(TableOf(w)) && LivesOk(w)
  {
  }

  lemma FateStands(w: World, slot: Slot)
    requires WorldOk(w) && slot in w.fate
    ensures slot.nonce < NextNonceOf(w.counter, slot.pair)
    ensures match w.fate[slot]
            case Held(id) => true
            case GivenUp(id) => AnsweredTooLow(w.sends, slot, id)
            case ReportedUsed(id) => FailedWith(w, id, slot, NonceUsed)
            case FillerRefused(id) =>
              exists reason :: FailedWith(w, id, slot, Refused(reason)) && Now(w, id).kind == Filler
  {
    hide IsLife, Good, RunsOk, SendsRecorded, NoncesOk;
    assert FateOk(TableOf(w), slot);
    if w.fate[slot].FillerRefused? {
      assert FailedWith(w, w.fate[slot].id, slot, Refused(Now(w, w.fate[slot].id).error.value.reason));
    }
  }

  /** The counters never go back. */
  lemma CountersNeverGoBack(ws: seq<World>, steps: seq<Step>, i: nat, j: nat, pair: Pair)
    requires IsBehaviour(ws, steps) && i <= j < |ws|
    ensures NextNonceOf(ws[i].counter, pair) <= NextNonceOf(ws[j].counter, pair)
    decreases j - i
  {
    hide IsHistory, CanStep, Do, WorldOk, CanMove, After;
    if i < j {
      CountersNeverGoBack(ws, steps, i, j - 1, pair);
      EveryWorldIsOk(ws, steps, j - 1);
      WorldStepMoves(ws[j - 1], steps[j - 1]);
      assert ws[j] == Do(ws[j - 1], steps[j - 1]);
    }
  }

  lemma WorldStepMoves(w: World, step: Step)
    requires WorldOk(w) && CanStep(w, step)
    ensures forall pair :: NextNonceOf(w.counter, pair) <= NextNonceOf(Do(w, step).counter, pair)
  {
    hide CanStep, Do, CanMove, After, LivesOk, RunsOk, Ok, SendsRecorded, NoncesOk;
    StepMoves(w, step);
    MoveEvolves(TableOf(w), MoveOf(w, step));
  }

  /** A refused relay transaction's nonce went, in the write that failed it, to one filler, which has it ever after: the
      filler is live at it, or the chain used it, or a node refused the filler. */
  lemma RefusedHandsItsNonceToOneFiller(ws: seq<World>, steps: seq<Step>, i: nat, j: nat, id: TxId)
    requires IsBehaviour(ws, steps) && i <= j < |ws|
    requires Exists(ws[i], id) && Now(ws[i], id).kind == Relay && Now(ws[i], id).status == Failed
    requires Now(ws[i], id).error.Some? && Now(ws[i], id).error.value.Refused?
    ensures var tx, w := Now(ws[i], id), ws[j];
            && tx.nonce.Some? && tx.fillerTxId.Some? && Exists(w, tx.fillerTxId.value)
            && var f := Now(w, tx.fillerTxId.value);
               && f.kind == Filler && f.fillsTxId == Some(id) && f.nonce == tx.nonce && f.pair == tx.pair
               && (forall g :: Exists(w, g) && Now(w, g).fillsTxId == Some(id) && Now(w, g).kind == Filler ==> g == f.txId)
               && var slot := Slot(tx.pair, tx.nonce.value);
                  slot in w.fate && (w.fate[slot] == Held(f.txId) || w.fate[slot] == ReportedUsed(f.txId)
                                     || w.fate[slot] == FillerRefused(f.txId))
  {
    hide IsHistory, IsBehaviour, WorldOk, Ok;
    BehaviourIsHistory(ws, steps);
    EveryWorldIsOk(ws, steps, i);
    EveryWorldIsOk(ws, steps, j);
    HandedOverTo(ws[i], id);
    var f := Now(ws[i], id).fillerTxId.value;
    FillerKeepsItsNonce(Tables(ws), Moves(ws, steps), i, j, f);
    FillerIsAlone(ws[j], f, id);
  }

  lemma HandedOverTo(w: World, id: TxId)
    requires WorldOk(w) && Exists(w, id) && Now(w, id).kind == Relay && Now(w, id).status == Failed
    requires Now(w, id).error.Some? && Now(w, id).error.value.Refused?
    ensures var tx := Now(w, id);
            && tx.nonce.Some? && tx.fillerTxId.Some? && HandedOver(TableOf(w), id, tx.fillerTxId.value)
            && TableOf(w).all[id].pair == tx.pair && TableOf(w).all[id].nonce == tx.nonce
  {
    hide IsLife, RunsOk, SendsRecorded, NoncesOk;
    StandingFacts(w, id);
    assert StandingOk(TableOf(w), id);
  }

  /** A filler as the table has it is the record; nothing else fills what it fills. */
  lemma FillerIsAlone(w: World, f: TxId, id: TxId)
    requires WorldOk(w) && f in TableOf(w).all && TableOf(w).all[f].kind == Filler && TableOf(w).all[f].fills == Some(id)
    ensures Exists(w, f) && StandingOf(Now(w, f)) == TableOf(w).all[f] && Now(w, f).txId == f
    ensures forall g :: Exists(w, g) && Now(w, g).fillsTxId == Some(id) && Now(w, g).kind == Filler ==> g == f
  {
    hide IsLife, RunsOk, SendsRecorded, NoncesOk, Good;
    StandingFacts(w, f);
    assert StandingOk(TableOf(w), f);
    forall g | Exists(w, g) && Now(w, g).fillsTxId == Some(id) && Now(w, g).kind == Filler ensures g == f {
      StandingFacts(w, g);
      assert StandingOk(TableOf(w), g);
    }
  }

  // What a run may do

  /** In every behaviour, a signer run gives a nonce up only if it took it, the one send ever made at it was its own and
      was answered nonce too low, a node was asked for each of its signatures since and had a receipt for none, and it has
      given up fewer than two. A filler never does. */
  lemma GivingUpIsSafe(ws: seq<World>, steps: seq<Step>, i: nat, s: nat, message: string)
    requires IsBehaviour(ws, steps) && i < |steps| && steps[i] == RunGivesUp(s, message)
    ensures var w := ws[i];
            s in w.runs && var r := w.runs[s];
            && r.copy.kind == Relay && r.taken == r.copy.nonce && r.copy.nonce.Some? && r.resets < MAX_NONCE_RESETS
            && AnsweredTooLow(w.sends, Slot(r.copy.pair, r.copy.nonce.value), r.txId)
    ensures forall p :: 0 <= p < |ws[i].runs[s].copy.attempts| ==>
              exists q :: 0 <= q < i && HadNoReceipt(ws[q], steps[q], s, ws[i].runs[s], ws[i].runs[s].copy.attempts[p].hash)
  {
    hide CanStep, Do, WorldOk, AnsweredTooLow, HadNoReceipt;
    EveryWorldIsOk(ws, steps, i);
    assert CanStep(ws[i], steps[i]);
    GiverTookIt(ws[i], s, message);
    GiverAsked(ws[i], s, message);
    forall p | 0 <= p < |ws[i].runs[s].copy.attempts|
      ensures exists q :: 0 <= q < i && HadNoReceipt(ws[q], steps[q], s, ws[i].runs[s], ws[i].runs[s].copy.attempts[p].hash)
    {
      var q := UnfoundWasAskedFor(ws, steps, i, s, p);
    }
  }

  /** The step at which the run, working on the same record after the same send, was told of no receipt for this hash. */
  predicate HadNoReceipt(w: World, step: Step, s: nat, r: Run, hash: Hash) {
    step == RunLooksUp(s, hash, None) && s in w.runs && w.runs[s].(unfound := r.unfound) == r
  }

  lemma GiverAsked(w: World, s: nat, message: string)
    requires CanStep(w, RunGivesUp(s, message))
    ensures s in w.runs && w.runs[s].unfound == Hashes(w.runs[s].copy.attempts)
  {
  }

  /** What a step does to what a run was told: it adds to it, leaves it, or the run begins something new. */
  lemma UnfoundOfStep(w: World, step: Step, s: nat)
    requires CanStep(w, step) && s in Do(w, step).runs
    ensures var r := Do(w, step).runs[s];
            || r.unfound == []
            || (s in w.runs && r == w.runs[s])
            || (s in w.runs && step.RunLooksUp? && step.signer == s && step.receipt.None?
                && r == w.runs[s].(unfound := w.runs[s].unfound + [step.hash]))
  {
    hide Enabled, Apply, Initial, Extended, SendOf;
  }

  /** Whatever a run remembers as not found, a node was asked for in an earlier step, since the run's last send. */
  lemma {:induction false} UnfoundWasAskedFor(ws: seq<World>, steps: seq<Step>, i: nat, s: nat, p: nat) returns (q: nat)
    requires IsBehaviour(ws, steps) && i < |ws| && s in ws[i].runs && p < |ws[i].runs[s].unfound|
    ensures q < i && HadNoReceipt(ws[q], steps[q], s, ws[i].runs[s], ws[i].runs[s].unfound[p])
    decreases i
  {
    hide CanStep, Do;
    assert i > 0;
    assert CanStep(ws[i - 1], steps[i - 1]) && ws[i] == Do(ws[i - 1], steps[i - 1]);
    UnfoundOfStep(ws[i - 1], steps[i - 1], s);
    q := i - 1;
    if p < |ws[i - 1].runs[s].unfound| { q := UnfoundWasAskedFor(ws, steps, i - 1, s, p); }
  }

  lemma GiverTookIt(w: World, s: nat, message: string)
    requires WorldOk(w) && CanStep(w, RunGivesUp(s, message))
    ensures s in w.runs
    ensures var r := w.runs[s];
            && r.copy.kind == Relay && r.taken == r.copy.nonce && r.copy.nonce.Some? && r.resets < MAX_NONCE_RESETS
            && AnsweredTooLow(w.sends, Slot(r.copy.pair, r.copy.nonce.value), r.txId)
  {
    hide IsLife, SendsRecorded, NoncesOk, Apply, Ok, LivesOk;
    var r := w.runs[s];
    assert CopyOk(w, s, r) && SentOk(w.sends, r);
  }

  /** In every behaviour, the nonce a run takes is above every nonce handed out for the pair till then, given up ones
      included, and nothing was ever sent at it. */
  lemma TakingIsSafe(ws: seq<World>, steps: seq<Step>, i: nat, s: nat)
    requires IsBehaviour(ws, steps) && i < |steps| && steps[i] == RunAssigns(s)
    ensures var w := ws[i];
            s in w.runs && var pair := w.runs[s].copy.pair;
            var nonce := NextNonceOf(w.counter, pair);
            && (forall slot :: slot in w.fate && slot.pair == pair ==> slot.nonce < nonce)
            && CountAt(w.sends, Slot(pair, nonce)) == 0
            && w.runs[s].copy.kind == Relay
            && Slot(pair, nonce) in ws[i + 1].fate && ws[i + 1].fate[Slot(pair, nonce)] == Held(w.runs[s].txId)
  {
    hide CanStep, Do, WorldOk, CountAt;
    EveryWorldIsOk(ws, steps, i);
    assert CanStep(ws[i], steps[i]) && ws[i + 1] == Do(ws[i], steps[i]);
    TakenIsNew(ws[i], s);
  }

  lemma TakenIsNew(w: World, s: nat)
    requires WorldOk(w) && CanStep(w, RunAssigns(s))
    ensures s in w.runs
    ensures var slot := Slot(w.runs[s].copy.pair, NextNonceOf(w.counter, w.runs[s].copy.pair));
            slot in Do(w, RunAssigns(s)).fate && Do(w, RunAssigns(s)).fate[slot] == Held(w.runs[s].txId)
    ensures var pair := w.runs[s].copy.pair;
            var nonce := NextNonceOf(w.counter, pair);
            && (forall slot :: slot in w.fate && slot.pair == pair ==> slot.nonce < nonce)
            && CountAt(w.sends, Slot(pair, nonce)) == 0
            && w.runs[s].copy.kind == Relay
  {
    hide IsLife, SendsRecorded, NoncesOk, Enabled, Apply, Ok, RunsOk;
    NextIsNew(TableOf(w), w.runs[s].copy.pair);
    AssignedNeedsNone(w.runs[s].copy, NextNonceOf(w.counter, w.runs[s].copy.pair));
    AssignedIsRelay(w, w.runs[s]);
  }

  lemma AssignedNeedsNone(tx: TxRecord, nonce: nat)
    requires Enabled(NonceAssigned(nonce), tx)
    ensures tx.nonce.None?
  {
  }

  // What was sent is not forgotten

  lemma {:induction false} EverSavedSince(images: seq<TxRecord>, k: nat, n: nat)
    requires k <= n < |images| && forall m :: k <= m <= n ==> images[m].nonce == images[k].nonce
    ensures HashSet(Hashes(images[k].attempts)) <= EverSaved(images, n)
    decreases n
  {
    if k < n {
      EverSavedSince(images, k, n - 1);
      assert images[n].nonce == images[k].nonce && images[n - 1].nonce == images[k].nonce;
    }
  }

  /** In every world of every behaviour, whatever was sent at the nonce a record has then, whoever sent it and whatever the
      answer, its hash is among the record's attempts or retired hashes: a lookup walk asks for it. */
  lemma EverySentHashIsKnown(ws: seq<World>, steps: seq<Step>, j: nat, i: nat)
    requires IsBehaviour(ws, steps) && j < |ws| && i < |ws[j].sends|
    requires var send := ws[j].sends[i];
             Exists(ws[j], send.txId) && Now(ws[j], send.txId).nonce == Some(send.slot.nonce)
    ensures ws[j].sends[i].hash in Known(Now(ws[j], ws[j].sends[i].txId))
  {
    hide WorldOk, Known, IsBehaviour;
    EveryWorldIsOk(ws, steps, j);
    SentIsKnown(ws[j], i);
  }

  lemma SentIsKnown(w: World, i: nat)
    requires WorldOk(w) && i < |w.sends|
    requires Exists(w, w.sends[i].txId) && Now(w, w.sends[i].txId).nonce == Some(w.sends[i].slot.nonce)
    ensures w.sends[i].hash in Known(Now(w, w.sends[i].txId))
  {
    hide Ok, RunsOk, Known, EverSaved;
    var send := w.sends[i];
    var life := w.lives[send.txId];
    assert Recorded(w, send) && NoReturn(life, send.txId, w.fate) && IsLife(life, send.txId);
    var k :| 0 <= k < |life.images| && HoldsAt(life.images[k], send);
    var n := |life.images| - 1;
    if !KeptSince(life, k) {
      NotGivenUp(w, send.txId, life.images[k]);
    }
    EverSavedSince(life.images, k, n);
    NoHashIsForgotten(life.images, life.events, n);
    assert send.hash in HashSet(Hashes(life.images[k].attempts));
  }

  /** A record does not hold a nonce it gave up. */
  lemma NotGivenUp(w: World, id: TxId, image: TxRecord)
    requires WorldOk(w) && Exists(w, id) && image.nonce.Some? && Now(w, id).nonce == image.nonce
    requires image in w.lives[id].images
    ensures Slot(image.pair, image.nonce.value) in w.fate ==> w.fate[Slot(image.pair, image.nonce.value)] != GivenUp(id)
  {
    hide IsRun, RunsOk, SendsRecorded, NoncesOk, Good, Ok;
    var k :| 0 <= k < |w.lives[id].images| && w.lives[id].images[k] == image;
    StandingFacts(w, id);
    VersionsCount(w.lives[id], id, k);
    NonceWasHandedOut(TableOf(w), id);
  }

  // Reaching one world from another

  ghost predicate CanFollow(w: World, u: World) { exists step :: CanStep(w, step) && u == Do(w, step) }

  ghost predicate IsPath(ws: seq<World>) {
    ws != [] && forall i :: 0 < i < |ws| ==> CanFollow(ws[i - 1], ws[i])
  }

  /** Any number of steps lead from one world to the other. */
  ghost predicate Reaches(w: World, u: World) { exists ws :: IsPath(ws) && ws[0] == w && ws[|ws| - 1] == u }

  lemma ReachesItself(w: World)
    ensures Reaches(w, w)
  {
    assert IsPath([w]);
  }

  lemma ReachesNext(w: World, u: World, step: Step)
    requires Reaches(w, u) && CanStep(u, step)
    ensures Reaches(w, Do(u, step))
  {
    hide CanFollow;
    var ws :| IsPath(ws) && ws[0] == w && ws[|ws| - 1] == u;
    var v := Do(u, step);
    CanFollowNext(u, step);
    var more := ws + [v];
    assert IsPath(more);
    assert more[0] == w && more[|more| - 1] == v;
  }

  lemma CanFollowNext(u: World, step: Step)
    requires CanStep(u, step)
    ensures CanFollow(u, Do(u, step))
  {
  }

  lemma ReachesTransitively(w: World, u: World, v: World)
    requires Reaches(w, u) && Reaches(u, v)
    ensures Reaches(w, v)
  {
    hide CanFollow;
    var a :| IsPath(a) && a[0] == w && a[|a| - 1] == u;
    var b :| IsPath(b) && b[0] == u && b[|b| - 1] == v;
    var c := a + b[1..];
    forall i | 0 < i < |c| ensures CanFollow(c[i - 1], c[i]) {
      if i >= |a| {
        assert c[i] == b[i - |a| + 1] && c[i - 1] == b[i - |a|];
      }
    }
    assert IsPath(c) && c[0] == w && c[|c| - 1] == v;
  }
}
