/** The all-URL walks in every interleaving: what a transaction is failed for, its URLs said, one hash after another. */
module RelayerWalks {
  import opened Wrappers
  import opened RelayerRecords
  import opened RelayerEvents
  import opened RelayerInvariants
  import opened RelayerRuns
  import opened RelayerLookups
  import opened RelayerNonces
  import opened RelayerProtocol
  import opened RelayerSafety
  import opened RelayerBehaviours

  // The log of denials

  /** Every URL denied this hash of the transaction to a sweep that worked on image `since` or a later one. */
  predicate Tells(d: Denial, id: TxId, since: nat, hash: Hash) {
    d.txId == id && d.version > since && d.hash == hash && d.urls > 0
  }

  /** These places of the log, one after another, tell of these hashes. */
  ghost predicate Places(at: seq<nat>, hashes: seq<Hash>, log: seq<Denial>, id: TxId, since: nat) {
    && |at| == |hashes| && (forall i, j :: 0 <= i < j < |at| ==> at[i] < at[j])
    && forall i :: 0 <= i < |at| ==> at[i] < |log| && Tells(log[at[i]], id, since, hashes[i])
  }

  /** Every URL denied each of these hashes, in this order. */
  ghost predicate Logged(hashes: seq<Hash>, log: seq<Denial>, id: TxId, since: nat) {
    exists at :: Places(at, hashes, log, id, since)
  }

  lemma NothingIsLogged(log: seq<Denial>, id: TxId, since: nat)
    ensures Logged([], log, id, since)
  {
    assert Places([], [], log, id, since);
  }

  lemma LoggedStays(hashes: seq<Hash>, log: seq<Denial>, more: seq<Denial>, id: TxId, since: nat)
    requires Logged(hashes, log, id, since)
    ensures Logged(hashes, log + more, id, since)
  {
    var at :| Places(at, hashes, log, id, since);
    assert Places(at, hashes, log + more, id, since);
  }

  lemma LoggedNext(hashes: seq<Hash>, log: seq<Denial>, id: TxId, since: nat, hash: Hash, d: Denial)
    requires Logged(hashes, log, id, since) && Tells(d, id, since, hash)
    ensures Logged(hashes + [hash], log + [d], id, since)
  {
    var at :| Places(at, hashes, log, id, since);
    var here: nat := |log|;
    var longer: seq<nat> := at + [here];
    assert Places(longer, hashes + [hash], log + [d], id, since);
  }

  // Walks of one life

  /** The image the first sweep of the walk in progress after n writes started from. */
  function WalkBegan(images: seq<TxRecord>, n: nat): (b: nat)
    requires n < |images|
    ensures b <= n && (forall m :: b < m <= n ==> Walking(images[m])) && (b == 0 || !Walking(images[b]))
  {
    if n == 0 || !Walking(images[n]) then n else WalkBegan(images, n - 1)
  }

  lemma {:induction false} SameWalk(a: Life, b: Life, n: nat)
    requires n < |a.images| == |a.events| + 1 && |b.images| == |b.events| + 1 && a.images <= b.images && a.events <= b.events
    ensures Progress(b.images, b.events, n) == Progress(a.images, a.events, n)
    ensures WalkBegan(b.images, n) == WalkBegan(a.images, n)
    decreases n
  {
    if n > 0 { SameWalk(a, b, n - 1); }
  }

  /** What the sweeps of a walk asked so far, up to any image, was denied since it began. */
  ghost predicate LifeWalks(life: Life, id: TxId, log: seq<Denial>) {
    && |life.images| == |life.events| + 1
    && forall m :: 0 <= m < |life.images| ==>
         Logged(Progress(life.images, life.events, m), log, id, WalkBegan(life.images, m))
  }

  /** The same with what the sweep at work has asked. */
  ghost predicate WalkerOk(life: Life, walker: Walker, log: seq<Denial>) {
    && IsImage(life, walker.copy) && |life.images| == |life.events| + 1
    && var m := walker.copy.version - 1;
       Logged(Progress(life.images, life.events, m) + walker.denied, log, walker.copy.txId, WalkBegan(life.images, m))
  }

  ghost predicate WalksOk(w: World) {
    && (forall id :: id in w.lives ==> LifeWalks(w.lives[id], id, w.denials))
    && (forall k :: k in w.sweeps ==>
          w.sweeps[k].copy.txId in w.lives && WalkerOk(w.lives[w.sweeps[k].copy.txId], w.sweeps[k], w.denials))
  }

  lemma NewWalks(tx: TxRecord, log: seq<Denial>)
    ensures LifeWalks(Life([tx], []), tx.txId, log)
  {
    NothingIsLogged(log, tx.txId, 0);
  }

  lemma LifeWalksStay(life: Life, id: TxId, log: seq<Denial>, more: seq<Denial>)
    requires LifeWalks(life, id, log)
    ensures LifeWalks(life, id, log + more)
  {
    hide Logged;
    forall m | 0 <= m < |life.images|
      ensures Logged(Progress(life.images, life.events, m), log + more, id, WalkBegan(life.images, m))
    {
      LoggedStays(Progress(life.images, life.events, m), log, more, id, WalkBegan(life.images, m));
    }
  }

  lemma WalkerStays(a: Life, b: Life, walker: Walker, log: seq<Denial>, more: seq<Denial>)
    requires WalkerOk(a, walker, log) && |b.images| == |b.events| + 1 && a.images <= b.images && a.events <= b.events
    ensures WalkerOk(b, walker, log + more)
  {
    hide Logged;
    var m := walker.copy.version - 1;
    SameWalk(a, b, m);
    LoggedStays(Progress(a.images, a.events, m) + walker.denied, log, more, walker.copy.txId, WalkBegan(a.images, m));
  }

  /** A write that goes on with a walk says what was asked, and that was denied. */
  lemma WriteWalks(life: Life, id: TxId, e: Event, log: seq<Denial>, walker: Option<Walker>)
    requires LifeWalks(life, id, log) && IsLife(life, id) && Enabled(e, Last(life))
    requires AskedOf(e).Some? ==>
               walker.Some? && WalkerOk(life, walker.value, log) && walker.value == Walker(Last(life), AskedOf(e).value)
    ensures LifeWalks(Extended(life, e), id, log)
  {
    hide Logged, Enabled, Apply;
    var next, n := Extended(life, e), |life.images|;
    assert life.images <= next.images && life.events <= next.events;
    LastVersion(life, id);
    forall m | 0 <= m <= n ensures Logged(Progress(next.images, next.events, m), log, id, WalkBegan(next.images, m)) {
      if m < n {
        SameWalk(life, next, m);
      } else if !Walking(next.images[n]) {
        NothingIsLogged(log, id, n);
      } else {
        SameWalk(life, next, n - 1);
        var before := Progress(life.images, life.events, n - 1);
        assert next.events[n - 1] == e;
        if !(e.WalkStopped? && e.walk == AllUrls) { assert before + [] == before; }
      }
    }
  }

  lemma LastVersion(life: Life, id: TxId)
    requires IsLife(life, id)
    ensures Last(life).version == |life.images| && Last(life).txId == id
  {
    VersionsCount(life, id, |life.images| - 1);
  }

  // Steps

  /** The records the step writes to and the event it writes, if any. */
  function WriteOf(w: World, step: Step): Option<(TxId, Event)>
    requires CanStep(w, step)
  {
    match step
    case RunAssigns(s) => Some((w.runs[s].txId, NonceAssigned(NextNonceOf(w.counter, w.runs[s].copy.pair))))
    case RunWrites(s, e) => Some((w.runs[s].txId, e))
    case RunGivesUp(s, message) => Some((w.runs[s].txId, NonceGivenUp(message)))
    case RunRefuses(s, e, _) => Some((w.runs[s].txId, e))
    case SweepRefuses(id, e, _) => Some((id, e))
    case SweepWrites(id, e, _) => Some((id, e))
    case _ => None
  }

  /** One life is one write longer; the others stay, and what is new is one image long. */
  ghost predicate Grows(w: World, u: World, id: TxId, e: Event)
    requires Exists(w, id) && Enabled(e, Now(w, id))
  {
    && u.denials == w.denials && u.sweeps == w.sweeps && id in u.lives && u.lives[id] == Extended(w.lives[id], e)
    && (forall o :: o in w.lives && o != id ==> o in u.lives && u.lives[o] == w.lives[o])
    && (forall o :: o in u.lives && o !in w.lives ==> exists tx: TxRecord :: tx.txId == o && u.lives[o] == Life([tx], []))
  }

  lemma WriteDoes(w: World, step: Step)
    requires CanStep(w, step) && WriteOf(w, step).Some?
    ensures var (id, e) := WriteOf(w, step).value;
            && Exists(w, id) && Enabled(e, Now(w, id)) && Grows(w, Do(w, step), id, e)
            && (AskedOf(e).Some? ==> step.SweepWrites? && Answered(w, e, Now(w, id), step.walker))
  {
    hide Enabled, Apply, Initial, Extended, Refusal, CanRefuse, AskedOf, Answered;
    var (id, e) := WriteOf(w, step).value;
    match step {
      case RunRefuses(s, _, filler) => RefusalDoes(w, id, e, filler);
      case SweepRefuses(_, _, filler) => RefusalDoes(w, id, e, filler);
      case _ =>
    }
    OthersSayNothing(w, step);
  }

  lemma RefusalDoes(w: World, id: TxId, e: Event, filler: Option<TxRecord>)
    requires Exists(w, id) && CanRefuse(w, Now(w, id), e, filler)
    ensures Enabled(e, Now(w, id)) && Grows(w, Refusal(w, id, e, filler), id, e)
  {
    hide Enabled, Extended, Initial;
  }

  lemma OthersSayNothing(w: World, step: Step)
    requires CanStep(w, step) && WriteOf(w, step).Some?
    ensures var (id, e) := WriteOf(w, step).value;
            AskedOf(e).Some? ==> step.SweepWrites? && Answered(w, e, Now(w, id), step.walker)
  {
    hide Enabled, Initial;
  }

  lemma WriteKeepsWalks(w: World, step: Step)
    requires LivesOk(w) && WalksOk(w) && CanStep(w, step) && WriteOf(w, step).Some?
    ensures WalksOk(Do(w, step))
  {
    hide CanStep, Do, WriteOf, IsLife, LifeWalks, WalkerOk, Enabled;
    var u := Do(w, step);
    var (id, e) := WriteOf(w, step).value;
    WriteDoes(w, step);
    var walker := if AskedOf(e).Some? then Some(w.sweeps[step.walker.value]) else None;
    LastVersion(w.lives[id], id);
    WriteWalks(w.lives[id], id, e, w.denials, walker);
    forall o | o in u.lives ensures LifeWalks(u.lives[o], o, u.denials) {
      if o !in w.lives {
        var tx: TxRecord :| tx.txId == o && u.lives[o] == Life([tx], []);
        NewWalks(tx, u.denials);
      }
    }
    forall k | k in u.sweeps
      ensures u.sweeps[k].copy.txId in u.lives && WalkerOk(u.lives[u.sweeps[k].copy.txId], u.sweeps[k], u.denials)
    {
      var o := u.sweeps[k].copy.txId;
      assert w.denials + [] == u.denials;
      Lengths(w.lives[o], o);
      WalkerStays(w.lives[o], u.lives[o], u.sweeps[k], w.denials, []);
    }
  }

  lemma Lengths(life: Life, id: TxId)
    requires IsLife(life, id)
    ensures |life.images| == |life.events| + 1
  {
  }

  lemma CreateKeepsWalks(w: World, tx: TxRecord)
    requires WalksOk(w) && CanStep(w, Create(tx))
    ensures WalksOk(Do(w, Create(tx)))
  {
    hide LifeWalks, WalkerOk, Initial;
    NewWalks(tx, w.denials);
  }

  /** A sweep that begins has asked nothing yet beyond what the walk saved in its copy. */
  lemma ReadKeepsWalks(w: World, k: nat, copy: TxRecord)
    requires WalksOk(w) && CanStep(w, SweepReads(k, copy))
    ensures WalksOk(Do(w, SweepReads(k, copy)))
  {
    hide Logged;
    var life := w.lives[copy.txId];
    assert LifeWalks(life, copy.txId, w.denials);
    var before := Progress(life.images, life.events, copy.version - 1);
    assert before + [] == before;
    assert WalkerOk(life, Walker(copy, []), w.denials);
  }

  lemma AskKeepsWalks(w: World, k: nat, hash: Hash, answers: seq<UrlAnswer>)
    requires WalksOk(w) && CanStep(w, SweepAsks(k, hash, answers)) && AllDeny(answers)
    ensures WalksOk(Do(w, SweepAsks(k, hash, answers)))
  {
    hide Logged, LifeWalks, WalkerOk;
    var u, walker := Do(w, SweepAsks(k, hash, answers)), w.sweeps[k];
    var d := Denial(walker.copy.txId, walker.copy.version, hash, |answers|);
    forall id | id in u.lives ensures LifeWalks(u.lives[id], id, u.denials) {
      LifeWalksStay(w.lives[id], id, w.denials, [d]);
    }
    forall j | j in u.sweeps
      ensures u.sweeps[j].copy.txId in u.lives && WalkerOk(u.lives[u.sweeps[j].copy.txId], u.sweeps[j], u.denials)
    {
      var life := w.lives[w.sweeps[j].copy.txId];
      if j == k {
        AskedNext(life, walker, w.denials, hash, d);
      } else {
        WalkerLength(life, w.sweeps[j], w.denials);
        WalkerStays(life, life, w.sweeps[j], w.denials, [d]);
      }
    }
  }

  lemma WalkerLength(life: Life, walker: Walker, log: seq<Denial>)
    requires WalkerOk(life, walker, log)
    ensures |life.images| == |life.events| + 1
  {
  }

  lemma AskedNext(life: Life, walker: Walker, log: seq<Denial>, hash: Hash, d: Denial)
    requires WalkerOk(life, walker, log) && d.hash == hash && d.urls > 0
    requires d.txId == walker.copy.txId && d.version == walker.copy.version
    ensures WalkerOk(life, walker.(denied := walker.denied + [hash]), log + [d])
  {
    hide Logged;
    var m := walker.copy.version - 1;
    var before := Progress(life.images, life.events, m);
    LoggedNext(before + walker.denied, log, walker.copy.txId, WalkBegan(life.images, m), hash, d);
    assert (before + walker.denied) + [hash] == before + (walker.denied + [hash]);
  }

  lemma QuietKeepsWalks(w: World, step: Step)
    requires WalksOk(w) && CanStep(w, step) && WriteOf(w, step).None? && !step.Create? && !step.SweepReads?
    requires step.SweepAsks? ==> !AllDeny(step.answers)
    ensures WalksOk(Do(w, step))
  {
    hide LifeWalks, WalkerOk, SendOf;
  }

  lemma WalksStep(w: World, step: Step)
    requires LivesOk(w) && WalksOk(w) && CanStep(w, step)
    ensures WalksOk(Do(w, step))
  {
    hide CanStep, Do, WalksOk, LivesOk, WriteOf;
    if WriteOf(w, step).Some? {
      WriteKeepsWalks(w, step);
    } else if step.Create? {
      CreateKeepsWalks(w, step.tx);
    } else if step.SweepReads? {
      ReadKeepsWalks(w, step.sweep, step.copy);
    } else if step.SweepAsks? && AllDeny(step.answers) {
      AskKeepsWalks(w, step.sweep, step.hash, step.answers);
    } else {
      QuietKeepsWalks(w, step);
    }
  }

  // Behaviours

  /** In every world of every behaviour, what a walk has asked so far is in the log of denials, in the walk's order and
      from after it began, whatever sweeps it was cut into and whatever ran in between. */
  lemma {:induction false} EveryWalkIsLogged(ws: seq<World>, steps: seq<Step>, i: nat)
    requires IsBehaviour(ws, steps) && i < |ws|
    ensures WalksOk(ws[i])
    decreases i
  {
    hide CanStep, Do, WorldOk, WalksOk;
    if i == 0 {
      NothingWalks(ws[0]);
    } else {
      EveryWalkIsLogged(ws, steps, i - 1);
      EveryWorldIsOk(ws, steps, i - 1);
      assert CanStep(ws[i - 1], steps[i - 1]) && ws[i] == Do(ws[i - 1], steps[i - 1]);
      WorldHasLives(ws[i - 1]);
      WalksStep(ws[i - 1], steps[i - 1]);
    }
  }

  lemma NothingWalks(w: World)
    requires Nothing(w)
    ensures WalksOk(w)
  {
  }

  lemma WorldHasLives(w: World)
    requires WorldOk(w)
    ensures LivesOk(w)
  {
  }

  /** The step at which every URL said it has no receipt. */
  predicate WasDenied(w: World, step: Step, d: Denial) {
    && step.SweepAsks? && step.hash == d.hash && AllDeny(step.answers) && |step.answers| == d.urls > 0
    && step.sweep in w.sweeps && w.sweeps[step.sweep].copy.txId == d.txId && w.sweeps[step.sweep].copy.version == d.version
  }

  /** A denial is in the log because every URL was asked in an earlier step and denied it: the p-th such step. */
  lemma {:induction false} DenialsWereAnswered(ws: seq<World>, steps: seq<Step>, i: nat, p: nat) returns (q: nat)
    requires IsBehaviour(ws, steps) && i < |ws| && p < |ws[i].denials|
    ensures q < i && |ws[q].denials| == p && WasDenied(ws[q], steps[q], ws[i].denials[p])
    decreases i
  {
    hide CanStep, Do, WasDenied;
    assert i > 0;
    assert CanStep(ws[i - 1], steps[i - 1]) && ws[i] == Do(ws[i - 1], steps[i - 1]);
    DenialsOfStep(ws[i - 1], steps[i - 1]);
    if p < |ws[i - 1].denials| {
      q := DenialsWereAnswered(ws, steps, i - 1, p);
    } else {
      q := i - 1;
    }
  }

  lemma DenialsOfStep(w: World, step: Step)
    requires CanStep(w, step)
    ensures var u := Do(w, step);
            || u.denials == w.denials
            || (|u.denials| == |w.denials| + 1 && u.denials[..|w.denials|] == w.denials
                && WasDenied(w, step, u.denials[|w.denials|]))
  {
    hide Enabled, Apply, Initial, Extended, SendOf;
    if WriteOf(w, step).Some? { WriteDoes(w, step); }
  }

  /** The whole walk that ends at the n-th image: the hashes ever saved at its nonce, newest first, and the stored
      attempts a second time if a sweep resumed it. */
  predicate IsFullWalk(images: seq<TxRecord>, n: nat, walked: seq<Hash>)
    requires n < |images|
  {
    var tx := images[n];
    && walked == (if WalkStart(tx, AllUrls) > 0 then ReceiptHashes(tx) + Reverse(Hashes(tx.attempts))
                  else ReceiptHashes(tx))
    && HashSet(walked) == EverSaved(images, n)
  }

  /** What a nonce-used failure rests on, in every interleaving, however many sweeps the walk was cut into: every hash
      ever saved at the nonce was denied by every URL, in the order of the walk, the stored attempts a second time if a
      sweep resumed it, each to a sweep that read the record after the walk began; and the nonce had read as used for the
      confirmation depth and the minimum age. */
  lemma NonceUsedMeansDenied(ws: seq<World>, steps: seq<Step>, i: nat) returns (walked: seq<Hash>)
    requires IsBehaviour(ws, steps) && i < |steps| && steps[i].SweepWrites? && steps[i].e.NonceUsedFailure?
    ensures Exists(ws[i], steps[i].id)
    ensures var id, e, images := steps[i].id, steps[i].e, ws[i].lives[steps[i].id].images;
            && ReadyToFail(Now(ws[i], id), e.head, e.now, e.settings)
            && IsFullWalk(images, |images| - 1, walked)
            && Logged(walked, ws[i].denials, id, WalkBegan(images, |images| - 1))
  {
    hide WorldOk, WalksOk, Logged, ReadyToFail, IsFullWalk, Enabled, Apply;
    EveryWorldIsOk(ws, steps, i);
    EveryWalkIsLogged(ws, steps, i);
    assert CanStep(ws[i], steps[i]);
    WorldHasLives(ws[i]);
    walked := FailureIsLogged(ws[i], steps[i].id, steps[i].e, steps[i].walker);
  }

  lemma FailureIsLogged(w: World, id: TxId, e: Event, walker: Option<nat>) returns (walked: seq<Hash>)
    requires LivesOk(w) && WalksOk(w) && e.NonceUsedFailure? && CanStep(w, SweepWrites(id, e, walker))
    ensures var images := w.lives[id].images;
            && ReadyToFail(Now(w, id), e.head, e.now, e.settings)
            && IsFullWalk(images, |images| - 1, walked)
            && Logged(walked, w.denials, id, WalkBegan(images, |images| - 1))
  {
    hide Enabled, Logged, ReadyToFail, IsFullWalk, IsLife, LifeWalks;
    var life := w.lives[id];
    walked := FailureIsFull(life, id, e);
    LastVersion(life, id);
    assert WalkerOk(life, w.sweeps[walker.value], w.denials);
  }

  lemma FailureIsFull(life: Life, id: TxId, e: Event) returns (walked: seq<Hash>)
    requires IsLife(life, id) && e.NonceUsedFailure? && Enabled(e, Last(life))
    ensures walked == Progress(life.images, life.events, |life.images| - 1) + e.asked
    ensures IsFullWalk(life.images, |life.images| - 1, walked) && ReadyToFail(Last(life), e.head, e.now, e.settings)
  {
    hide Enabled, Apply, ReadyToFail, Walking, EverSaved, ReceiptHashes, Reverse, Hashes, HashSet, WalkStart;
    var n, next := |life.images| - 1, Extended(life, e);
    ExtendedIsLife(life, id, e);
    NonceUsedOnlyAfterAFullWalk(next.images, next.events, n);
    SameWalk(life, next, n);
    SameEver(life, next, n);
    assert next.images[n] == life.images[n] && next.events[n] == e;
    walked := Progress(life.images, life.events, n) + e.asked;
  }

  lemma {:induction false} SameEver(a: Life, b: Life, n: nat)
    requires n < |a.images| && a.images <= b.images
    ensures EverSaved(b.images, n) == EverSaved(a.images, n)
    decreases n
  {
    if n > 0 { SameEver(a, b, n - 1); }
  }
}
