/** The relayer's table (services/relayer/src/store.ts): versioned records, nonce counters, idempotency claims and spend
    counters, changed by conditional writes.

    `w` is the protocol's view of the same table, with its history. Other invocations may take any number of protocol
    steps before each call (`Others`); what a call itself writes is one protocol step. */
module RelayerStore {
  import opened Wrappers
  import ReplacementFees
  import opened RelayerRecords
  import opened RelayerEvents
  import opened RelayerInvariants
  import opened RelayerRuns
  import opened RelayerNonces
  import opened RelayerProtocol
  import opened RelayerSafety
  import opened RelayerBehaviours
  import opened DailySpend

  const NONCE_ATTEMPTS: nat := 25
  const TRANSACTION_CONFLICT_RETRIES: nat := 3

  /** The table holds each record's last image. */
  ghost predicate Mirrors(w: World, txs: map<TxId, TxRecord>) {
    txs.Keys == w.lives.Keys && forall id :: id in txs ==> Exists(w, id) && txs[id] == Now(w, id)
  }

  /** The copy was read from the table, or is what a write stored; it may be out of date by now. */
  predicate Seen(w: World, copy: TxRecord) { copy.txId in w.lives && IsImage(w.lives[copy.txId], copy) }

  predicate SameRun(w: World, u: World, s: nat) {
    (s in w.runs <==> s in u.runs) && (s in w.runs ==> u.runs[s] == w.runs[s])
  }

  predicate SameSweep(w: World, u: World, k: nat) {
    (k in w.sweeps <==> k in u.sweeps) && (k in w.sweeps ==> u.sweeps[k] == w.sweeps[k])
  }

  /** The invocation a call is made for: a signer's run, one sweep of a transaction, or neither. */
  datatype Actor = Nobody | Signing(s: nat) | Sweeping(k: nat)

  /** What the invocation knows stays while others take steps. */
  predicate Rests(w: World, u: World, who: Actor) {
    match who
    case Nobody => true
    case Signing(s) => SameRun(w, u, s)
    case Sweeping(k) => SameSweep(w, u, k)
  }

  // Which writes a caller may ask for

  function EventOf(step: Step): Event
    requires step.RunWrites? || step.RunGivesUp? || step.RunRefuses? || step.SweepRefuses? || step.SweepWrites?
  {
    match step
    case RunWrites(_, e) => e
    case RunGivesUp(_, message) => NonceGivenUp(message)
    case RunRefuses(_, e, _) => e
    case SweepRefuses(_, e, _) => e
    case SweepWrites(_, e, _) => e
  }

  predicate IsWrite(step: Step) {
    step.RunWrites? || step.RunGivesUp? || step.RunRefuses? || step.SweepRefuses? || step.SweepWrites?
  }

  /** The signer run that takes the step, if one does. */
  function RunOf(step: Step): Option<nat> {
    match step
    case RunWrites(s, _) => Some(s)
    case RunGivesUp(s, _) => Some(s)
    case RunRefuses(s, _, _) => Some(s)
    case RunAssigns(s) => Some(s)
    case RunSends(s, _) => Some(s)
    case RunStarts(s, _) => Some(s)
    case RunEnds(s) => Some(s)
    case _ => None
  }

  function ActorOf(step: Step): Actor {
    if RunOf(step).Some? then Signing(RunOf(step).value)
    else if step.SweepWrites? && step.walker.Some? then Sweeping(step.walker.value)
    else Nobody
  }

  function FillerOf(step: Step): Option<TxRecord> {
    match step
    case RunRefuses(_, _, filler) => filler
    case SweepRefuses(_, _, filler) => filler
    case _ => None
  }

  predicate MayRefuse(copy: TxRecord, e: Event, filler: Option<TxRecord>) {
    && e.RefusalFailed? && Enabled(e, copy)
    && (filler.None? ==> e.filler.None?)
    && (filler.Some? ==> e.filler == Some(filler.value.txId) && IsFillerOf(filler.value, copy))
  }

  /** The step a caller means to take is the protocol's, provided its copy is still the stored record. */
  predicate Licensed(w: World, step: Step, copy: TxRecord) {
    && Seen(w, copy)
    && (RunOf(step).Some? ==>
          var s := RunOf(step).value;
          s in w.runs && w.runs[s].copy == copy && w.runs[s].txId == copy.txId)
    && match step
       case RunWrites(s, e) => Enabled(e, copy) && Settles(e, w.runs[s].sent)
       case RunGivesUp(s, message) =>
         && Enabled(NonceGivenUp(message), copy) && w.runs[s].sent == Some(NonceTooLow(message))
         && copy.nonce.Some? && copy.nonce == w.runs[s].taken && w.runs[s].resets < MAX_NONCE_RESETS
         && w.runs[s].unfound == Hashes(copy.attempts)
       case RunRefuses(s, e, filler) =>
         MayRefuse(copy, e, filler) && copy.status == Queued && w.runs[s].sent == Some(Rejected(e.reason))
       case SweepRefuses(id, e, filler) => id == copy.txId && copy.status == Submitted && MayRefuse(copy, e, filler)
       case SweepWrites(id, e, walker) =>
         && id == copy.txId && SweeperEvent(e) && Enabled(e, copy) && (e.RefusalKept? ==> copy.status == Submitted)
         && Answered(w, e, copy, walker)
       case _ => false
  }

  lemma LicenseHolds(w: World, step: Step, copy: TxRecord)
    requires Licensed(w, step, copy) && Exists(w, copy.txId) && Now(w, copy.txId) == copy
    requires FillerOf(step).Some? ==> FillerOf(step).value.txId !in w.lives
    ensures CanStep(w, step)
  {
    hide Enabled;
  }

  lemma LicenseStays(w: World, u: World, step: Step, copy: TxRecord)
    requires Licensed(w, step, copy) && Seen(u, copy) && Rests(w, u, ActorOf(step))
    ensures Licensed(u, step, copy)
  {
    hide Enabled;
  }

  /** Images stay images. */
  lemma {:induction false} SeenAlong(ws: seq<World>, copy: TxRecord)
    requires IsPath(ws) && WorldOk(ws[0]) && Seen(ws[0], copy)
    ensures WorldOk(ws[|ws| - 1]) && Seen(ws[|ws| - 1], copy)
    decreases |ws|
  {
    hide CanFollow, WorldOk;
    if |ws| > 1 {
      var front := ws[..|ws| - 1];
      SeenAlong(front, copy);
      assert CanFollow(ws[|ws| - 2], ws[|ws| - 1]);
      SeenNext(ws[|ws| - 2], ws[|ws| - 1], copy);
    }
  }

  lemma SeenNext(w: World, u: World, copy: TxRecord)
    requires WorldOk(w) && CanFollow(w, u) && Seen(w, copy)
    ensures WorldOk(u) && Seen(u, copy)
  {
    hide CanStep, Do, LivesOk, RunsOk, Ok, NoncesOk, SendsRecorded, NonceGoesOnlyGivenUp;
    var step :| CanStep(w, step) && u == Do(w, step);
    WorldStep(w, step);
    LivesGrow(w, step);
    var a, b := w.lives[copy.txId], u.lives[copy.txId];
    if b != a { assert b.images[..|b.images| - 1][copy.version - 1] == a.images[copy.version - 1]; }
  }

  lemma SeenStays(w: World, u: World, copy: TxRecord)
    requires WorldOk(w) && Reaches(w, u) && Seen(w, copy)
    ensures Seen(u, copy)
  {
    hide WorldOk, CanFollow, Seen;
    var ws :| IsPath(ws) && ws[0] == w && ws[|ws| - 1] == u;
    SeenAlong(ws, copy);
  }

  /** The image this write makes of the copy was stored, whatever was written since. */
  ghost predicate Saved(w: World, tx: TxRecord, e: Event) { Enabled(e, tx) && Seen(w, Apply(e, tx)) }

  lemma SavedStays(w: World, u: World, tx: TxRecord, e: Event)
    requires WorldOk(w) && Reaches(w, u) && Saved(w, tx, e)
    ensures Saved(u, tx, e)
  {
    hide Enabled, Apply, WorldOk, Reaches;
    SeenStays(w, u, Apply(e, tx));
  }

  /** The send was made between the two worlds. */
  ghost predicate SentIn(w: World, u: World, send: Send) {
    w.sends <= u.sends && exists i :: |w.sends| <= i < |u.sends| && u.sends[i] == send
  }

  /** A signature of the transaction was sent between the two worlds. */
  ghost predicate SentFor(w: World, u: World, id: TxId) { exists send :: SentIn(w, u, send) && send.txId == id }

  /** The signature with this hash was sent between the two worlds. */
  ghost predicate SentHash(w: World, u: World, id: TxId, hash: Hash) {
    exists send :: SentIn(w, u, send) && send.txId == id && send.hash == hash
  }

  /** No send is unmade. */
  lemma {:induction false} SendsAlong(ws: seq<World>)
    requires IsPath(ws) && WorldOk(ws[0])
    ensures WorldOk(ws[|ws| - 1]) && ws[0].sends <= ws[|ws| - 1].sends
    decreases |ws|
  {
    hide CanFollow, WorldOk;
    if |ws| > 1 {
      SendsAlong(ws[..|ws| - 1]);
      assert CanFollow(ws[|ws| - 2], ws[|ws| - 1]);
      SendsNext(ws[|ws| - 2], ws[|ws| - 1]);
    }
  }

  lemma SendsNext(w: World, u: World)
    requires WorldOk(w) && CanFollow(w, u)
    ensures WorldOk(u) && w.sends <= u.sends
  {
    hide CanStep, Do, LivesOk, RunsOk, Ok, NoncesOk, SendsRecorded, Recorded;
    var step :| CanStep(w, step) && u == Do(w, step);
    WorldStep(w, step);
    SendsOfStep(w, step);
  }

  lemma SendsGrow(w: World, u: World)
    requires WorldOk(w) && Reaches(w, u)
    ensures WorldOk(u) && w.sends <= u.sends
  {
    hide WorldOk, CanFollow;
    var ws :| IsPath(ws) && ws[0] == w && ws[|ws| - 1] == u;
    SendsAlong(ws);
  }

  /** No counter goes back. */
  lemma {:induction false} CountersAlong(ws: seq<World>, pair: Pair)
    requires IsPath(ws) && WorldOk(ws[0])
    ensures WorldOk(ws[|ws| - 1])
    ensures NextNonceOf(ws[0].counter, pair) <= NextNonceOf(ws[|ws| - 1].counter, pair)
    decreases |ws|
  {
    hide CanStep, Do, WorldOk;
    if |ws| > 1 {
      CountersAlong(ws[..|ws| - 1], pair);
      var w, u := ws[|ws| - 2], ws[|ws| - 1];
      assert CanFollow(w, u);
      var step :| CanStep(w, step) && u == Do(w, step);
      WorldStep(w, step);
      WorldStepMoves(w, step);
    }
  }

  lemma CountersGrow(w: World, u: World, pair: Pair)
    requires WorldOk(w) && Reaches(w, u)
    ensures NextNonceOf(w.counter, pair) <= NextNonceOf(u.counter, pair)
  {
    hide WorldOk, CanFollow;
    var ws :| IsPath(ws) && ws[0] == w && ws[|ws| - 1] == u;
    CountersAlong(ws, pair);
  }

  lemma SentStays(w: World, u: World, v: World, send: Send)
    requires WorldOk(u) && SentIn(w, u, send) && Reaches(u, v)
    ensures SentIn(w, v, send)
  {
    hide WorldOk, Reaches;
    SendsGrow(u, v);
    var i :| |w.sends| <= i < |u.sends| && u.sends[i] == send;
    assert v.sends[i] == send;
  }

  lemma SentAfter(w: World, u: World, v: World, send: Send)
    requires WorldOk(w) && Reaches(w, u) && SentIn(u, v, send)
    ensures SentIn(w, v, send)
  {
    hide WorldOk, Reaches;
    SendsGrow(w, u);
  }

  lemma SentHashStays(w: World, u: World, v: World, id: TxId, hash: Hash)
    requires WorldOk(u) && SentHash(w, u, id, hash) && Reaches(u, v)
    ensures SentHash(w, v, id, hash)
  {
    hide WorldOk, Reaches, SentIn;
    var send :| SentIn(w, u, send) && send.txId == id && send.hash == hash;
    SentStays(w, u, v, send);
  }

  lemma SentHashAfter(w: World, u: World, v: World, id: TxId, hash: Hash)
    requires WorldOk(w) && Reaches(w, u) && SentHash(u, v, id, hash)
    ensures SentHash(w, v, id, hash)
  {
    hide WorldOk, Reaches, SentIn;
    var send :| SentIn(u, v, send) && send.txId == id && send.hash == hash;
    SentAfter(w, u, v, send);
  }

  /** A stored record with the version of a copy is the copy. */
  lemma SameVersionIsCurrent(w: World, copy: TxRecord)
    requires WorldOk(w) && Seen(w, copy)
    ensures Exists(w, copy.txId)
    ensures Now(w, copy.txId).version == copy.version ==> Now(w, copy.txId) == copy
  {
    hide RunsOk, Ok, NoncesOk, SendsRecorded, IsLife;
    SameVersionSameImage(w.lives[copy.txId], copy.txId, copy);
  }

  /** What a write does to the lives. */
  lemma LivesOfWrite(w: World, step: Step, copy: TxRecord)
    requires WorldOk(w) && IsWrite(step) && Licensed(w, step, copy) && CanStep(w, step)
    requires Exists(w, copy.txId) && Now(w, copy.txId) == copy
    ensures Enabled(EventOf(step), copy)
    ensures var written := w.lives[copy.txId := Extended(w.lives[copy.txId], EventOf(step))];
            Do(w, step).lives == match FillerOf(step)
                                 case None => written
                                 case Some(f) => written[f.txId := Life([f], [])]
  {
    hide Enabled, Apply, LivesOk, RunsOk, Ok, NoncesOk, SendsRecorded, Initial;
    if step.RunRefuses? || step.SweepRefuses? { RefusedHasNonce(w, EventOf(step), copy); }
  }

  lemma RefusedHasNonce(w: World, e: Event, copy: TxRecord)
    requires WorldOk(w) && Exists(w, copy.txId) && Now(w, copy.txId) == copy && e.RefusalFailed? && Enabled(e, copy)
    ensures copy.nonce.Some?
  {
    hide RunsOk, Ok, NoncesOk, SendsRecorded, Good, IsLife;
    StandingFacts(w, copy.txId);
    HasNonce(copy);
  }

  /** What a run's own write does to the run. */
  lemma RunOfWrite(w: World, step: Step, copy: TxRecord)
    requires IsWrite(step) && Enabled(EventOf(step), copy)
    requires Licensed(w, step, copy) && CanStep(w, step) && RunOf(step).Some?
    ensures var s := RunOf(step).value;
            var r := w.runs[s];
            Do(w, step).runs == w.runs[s := if step.RunGivesUp?
                                            then Run(r.txId, Apply(EventOf(step), copy), r.taken, r.resets + 1, None, [])
                                            else r.(copy := Apply(EventOf(step), copy), unfound := [])]
  {
    hide Enabled, Apply, Initial;
  }

  /** The table after a record, and its filler if there is one, were written. */
  function Stored(txs: map<TxId, TxRecord>, id: TxId, saved: TxRecord, filler: Option<TxRecord>): map<TxId, TxRecord> {
    match filler
    case None => txs[id := saved]
    case Some(f) => txs[id := saved][f.txId := f]
  }

  /** Whatever a caller read or was given back is a good image. */
  lemma CopyIsGood(w: World, tx: TxRecord)
    requires WorldOk(w) && Seen(w, tx)
    ensures Good(tx)
  {
    hide RunsOk, Ok, NoncesOk, SendsRecorded, Good, IsLife;
    SameVersionSameImage(w.lives[tx.txId], tx.txId, tx);
  }

  /** A write stores the image the step makes, and the filler if it makes one, and nothing else. */
  lemma StepMirrors(w: World, txs: map<TxId, TxRecord>, step: Step, copy: TxRecord, e: Event)
    requires WorldOk(w) && Mirrors(w, txs) && IsWrite(step) && e == EventOf(step) && Enabled(e, copy)
    requires Licensed(w, step, copy) && CanStep(w, step) && Exists(w, copy.txId) && Now(w, copy.txId) == copy
    ensures Mirrors(Do(w, step), Stored(txs, copy.txId, Apply(e, copy), FillerOf(step)))
  {
    hide Enabled, Apply, LivesOk, RunsOk, Ok, NoncesOk, SendsRecorded, Do, CanStep, Licensed;
    LivesOfWrite(w, step, copy);
  }

  lemma WrittenIsSeen(w: World, step: Step, copy: TxRecord)
    requires WorldOk(w) && IsWrite(step) && Enabled(EventOf(step), copy)
    requires Licensed(w, step, copy) && CanStep(w, step) && Exists(w, copy.txId) && Now(w, copy.txId) == copy
    ensures Seen(Do(w, step), Apply(EventOf(step), copy))
  {
    hide Enabled, Apply, LivesOk, RunsOk, Ok, NoncesOk, SendsRecorded, Do, CanStep, Licensed, IsLife;
    LivesOfWrite(w, step, copy);
    FillerIsNew(w, step, copy);
    WorldStep(w, step);
    SeenLast(Do(w, step), copy.txId);
    FollowsStep(EventOf(step), copy);
  }

  lemma FillerIsNew(w: World, step: Step, copy: TxRecord)
    requires IsWrite(step) && Licensed(w, step, copy) && CanStep(w, step)
    ensures FillerOf(step).Some? ==> FillerOf(step).value.txId !in w.lives
  {
    hide Enabled, Apply, Initial;
  }

  lemma SeenLast(w: World, id: TxId)
    requires WorldOk(w) && Exists(w, id)
    ensures Seen(w, Now(w, id)) && Now(w, id).txId == id
  {
    hide RunsOk, Ok, NoncesOk, SendsRecorded, IsLife, Good;
    LastIsImage(w.lives[id], id);
  }

  /** No record goes. */
  lemma RecordsStay(w: World, u: World, txs: map<TxId, TxRecord>, later: map<TxId, TxRecord>)
    requires WorldOk(w) && WorldOk(u) && Reaches(w, u) && Mirrors(w, txs) && Mirrors(u, later)
    ensures txs.Keys <= later.Keys
  {
    hide WorldOk, Reaches, IsImage;
    forall id | id in txs ensures id in later {
      SeenLast(w, id);
      SeenStays(w, u, Now(w, id));
    }
  }

  // Reservations and claims

  datatype Claim = Claim(apiKey: nat, key: string)

  /** The claim's item holds the transaction's id and the transaction's item the hash of the request; they are written
      together and neither ever changes. */
  datatype Claimed = Claimed(txId: TxId, requestHash: nat)

  predicate ReservedFor(r: Reservation, tx: TxRecord) {
    r.txId == tx.txId && r.pair == tx.pair && r.value == tx.value && r.gasLimit == tx.gasLimit
  }

  /** A reservation belongs to the relay transaction it was made for. */
  predicate Covered(lives: map<TxId, Life>, r: Reservation) {
    && r.txId in lives && lives[r.txId].images != []
    && lives[r.txId].images[0].kind == Relay && ReservedFor(r, lives[r.txId].images[0])
  }

  predicate IsReserved(made: seq<Reservation>, id: TxId) { exists i :: 0 <= i < |made| && made[i].txId == id }

  predicate IsRelay(lives: map<TxId, Life>, id: TxId) {
    id in lives && lives[id].images != [] && lives[id].images[0].kind == Relay
  }

  /** Every relay transaction has a reservation, and every reservation a transaction of its own. */
  ghost predicate AllReserved(w: World, made: seq<Reservation>) {
    && (forall id :: IsRelay(w.lives, id) ==> IsReserved(made, id))
    && (forall i :: 0 <= i < |made| ==> Covered(w.lives, made[i]))
    && (forall i, j :: 0 <= i < j < |made| ==> made[i].txId != made[j].txId)
  }

  /** A key points at a stored transaction, and no two keys at the same one. */
  ghost predicate ClaimsOk(claims: map<Claim, Claimed>, lives: map<TxId, Life>) {
    && (forall c :: c in claims ==> claims[c].txId in lives)
    && (forall c, d :: c in claims && d in claims && claims[c].txId == claims[d].txId ==> c == d)
  }

  /** Nothing but a submission changes what is reserved or claimed. */
  lemma ReservedStep(w: World, step: Step, made: seq<Reservation>, claims: map<Claim, Claimed>)
    requires WorldOk(w) && CanStep(w, step) && !step.Create? && AllReserved(w, made) && ClaimsOk(claims, w.lives)
    ensures AllReserved(Do(w, step), made) && ClaimsOk(claims, Do(w, step).lives)
  {
    hide LivesOk, RunsOk, Ok, NoncesOk, SendsRecorded, Do, CanStep, NonceGoesOnlyGivenUp, ReservedFor, IsReserved, LifeGrows;
    var u := Do(w, step);
    LivesGrow(w, step);
    forall id | IsRelay(u.lives, id) ensures IsReserved(made, id) {
      if id in w.lives {
        SameFirst(w.lives[id], u.lives[id], id, u.fate);
        assert IsRelay(w.lives, id);
      } else {
        NewIsFiller(w, step, id);
      }
    }
    forall i | 0 <= i < |made| ensures Covered(u.lives, made[i]) {
      assert Covered(w.lives, made[i]);
      SameFirst(w.lives[made[i].txId], u.lives[made[i].txId], made[i].txId, u.fate);
    }
  }

  lemma SameFirst(a: Life, b: Life, id: TxId, fate: map<Slot, Fate>)
    requires LifeGrows(a, b, id, fate)
    ensures a.images != [] ==> b.images != [] && b.images[0] == a.images[0]
    ensures a.images == [] ==> b.images == []
  {
    if b != a { assert b.images[..|b.images| - 1][0] == a.images[0]; }
  }

  lemma NewIsFiller(w: World, step: Step, id: TxId)
    requires CanStep(w, step) && !step.Create? && id in Do(w, step).lives && id !in w.lives
    ensures Do(w, step).lives[id].images != [] && Do(w, step).lives[id].images[0].kind == Filler
  {
    hide Enabled, Apply, Extended, Initial, Settles, SweeperEvent, Answered, SendOf, Refusal, CanRefuse;
    match step {
      case RunRefuses(s, e, filler) => RefusalMakesFiller(w, w.runs[s].txId, e, filler, id);
      case SweepRefuses(at, e, filler) => RefusalMakesFiller(w, at, e, filler, id);
      case _ => assert false;
    }
  }

  lemma RefusalMakesFiller(w: World, id: TxId, e: Event, filler: Option<TxRecord>, made: TxId)
    requires Exists(w, id) && CanRefuse(w, Now(w, id), e, filler)
    requires made in Refusal(w, id, e, filler).lives && made !in w.lives
    ensures var life := Refusal(w, id, e, filler).lives[made];
            life.images != [] && life.images[0].kind == Filler
  {
    hide Enabled, Apply, Extended, Initial;
  }

  /** The steps that write nothing to the table. */
  predicate IsQuiet(step: Step) {
    || step.RunStarts? || step.RunEnds? || step.RunSends? || step.RunLooksUp? || step.SweepReads? || step.SweepAsks?
    || step.SweepSends?
  }

  lemma QuietMirrors(w: World, txs: map<TxId, TxRecord>, step: Step)
    requires Mirrors(w, txs) && CanStep(w, step)
    requires IsQuiet(step)
    ensures Mirrors(Do(w, step), txs) && Do(w, step).counter == w.counter
  {
    hide Do, CanStep;
    QuietLives(w, step);
  }

  lemma QuietLives(w: World, step: Step)
    requires CanStep(w, step)
    requires IsQuiet(step)
    ensures Do(w, step).lives == w.lives && Do(w, step).counter == w.counter
  {
    hide Enabled, Apply, Extended, Initial, Refusal, Write, CanRefuse, SendOf;
  }

  /** The run as its own write leaves it. */
  function NextRun(r: Run, step: Step, saved: TxRecord): Run {
    if step.RunGivesUp? then Run(r.txId, saved, r.taken, r.resets + 1, None, []) else r.(copy := saved, unfound := [])
  }

  /** The table and its protocol view agree. */
  ghost predicate TableOk(w: World, txs: map<TxId, TxRecord>, nextNonce: map<Pair, nat>, claims: map<Claim, Claimed>,
                          spent: map<SpendKey, nat>, made: seq<Reservation>)
  {
    && WorldOk(w) && Mirrors(w, txs) && nextNonce == w.counter
    && Books(spent, made) && AllReserved(w, made) && ClaimsOk(claims, w.lives)
  }

  /** A licensed write of an unchanged version is one step of the protocol. */
  lemma WriteIsAStep(from: World, w: World, txs: map<TxId, TxRecord>, nextNonce: map<Pair, nat>, claims: map<Claim, Claimed>,
                     spent: map<SpendKey, nat>, made: seq<Reservation>, step: Step, copy: TxRecord, e: Event)
    returns (u: World)
    requires TableOk(w, txs, nextNonce, claims, spent, made) && Reaches(from, w)
    requires IsWrite(step) && e == EventOf(step) && Enabled(e, copy) && Licensed(w, step, copy)
    requires copy.txId in txs && txs[copy.txId].version == copy.version
    requires FillerOf(step).Some? ==> FillerOf(step).value.txId !in txs
    ensures TableOk(u, Stored(txs, copy.txId, Apply(e, copy), FillerOf(step)), nextNonce, claims, spent, made)
    ensures Reaches(from, u) && Seen(u, Apply(e, copy)) && u.sweeps == w.sweeps
    ensures RunOf(step).Some? ==>
              var s := RunOf(step).value;
              s in w.runs && s in u.runs && u.runs[s] == NextRun(w.runs[s], step, Apply(e, copy))
  {
    hide Enabled, Apply, LivesOk, RunsOk, Ok, NoncesOk, SendsRecorded, Books, AllReserved, ClaimsOk, Reaches, Licensed,
         CanStep, Do, Seen;
    SeenExists(w, step, copy);
    SameVersionIsCurrent(w, copy);
    LicenseHolds(w, step, copy);
    StepMirrors(w, txs, step, copy, e);
    WrittenIsSeen(w, step, copy);
    WorldStep(w, step);
    ReservedStep(w, step, made, claims);
    ReachesNext(from, w, step);
    WriteKeepsCounter(w, step);
    if RunOf(step).Some? { RunIsThere(w, step, copy); RunOfWrite(w, step, copy); }
    u := Do(w, step);
  }

  /** The license outlasts the steps others take, and the record is still there. */
  lemma StillLicensed(w: World, u: World, txs: map<TxId, TxRecord>, step: Step, copy: TxRecord)
    requires WorldOk(w) && Reaches(w, u) && Licensed(w, step, copy) && Mirrors(u, txs)
    requires Rests(w, u, ActorOf(step))
    ensures Licensed(u, step, copy) && copy.txId in txs
    ensures RunOf(step).Some? ==>
              RunOf(step).value in u.runs && RunOf(step).value in w.runs
              && u.runs[RunOf(step).value] == w.runs[RunOf(step).value]
  {
    hide Enabled, WorldOk, Reaches, IsImage, MayRefuse, Settles, SweeperEvent;
    SeenExists(w, step, copy);
    SeenStays(w, u, copy);
    LicenseStays(w, u, step, copy);
  }

  /** The record handed to the store, with the version counted up, is the image the event makes. */
  lemma SavedIsApplied(e: Event, copy: TxRecord)
    requires Enabled(e, copy)
    ensures Image(e, copy).(version := copy.version + 1) == Apply(e, copy)
    ensures Image(e, copy).version == copy.version && Image(e, copy).txId == copy.txId && Apply(e, copy).txId == copy.txId
  {
    hide Enabled, NextStatus, NextAttempts, NextRetired, NextRetiredAccepted, NextLookup, NextNeedsBump,
         NextFeeCapReached, NextMined, NextUsedAtBlock, NextUsedAt, NextError, NextFiller, NextNonce, Clock, WithStatus;
    WithStatusKeeps(copy, NextStatus(e, copy), Clock(e));
  }

  lemma StoredIsSeen(w: World, txs: map<TxId, TxRecord>, nextNonce: map<Pair, nat>, claims: map<Claim, Claimed>,
                     spent: map<SpendKey, nat>, made: seq<Reservation>, tx: TxRecord)
    requires TableOk(w, txs, nextNonce, claims, spent, made) && tx.txId in txs && txs[tx.txId] == tx
    ensures Seen(w, tx)
  {
    hide WorldOk, Books, AllReserved, ClaimsOk;
    SeenLast(w, tx.txId);
  }

  lemma SeenExists(w: World, step: Step, copy: TxRecord)
    requires Licensed(w, step, copy)
    ensures Seen(w, copy)
  {
    hide Enabled;
  }

  lemma RunIsThere(w: World, step: Step, copy: TxRecord)
    requires Licensed(w, step, copy) && RunOf(step).Some?
    ensures RunOf(step).value in w.runs
  {
    hide Enabled;
  }

  lemma WriteKeepsCounter(w: World, step: Step)
    requires IsWrite(step) && CanStep(w, step)
    ensures Do(w, step).counter == w.counter && Do(w, step).sweeps == w.sweeps
  {
    hide Enabled, Apply, Initial, Extended, IsFillerOf, Settles, SweeperEvent, Answered, SendOf;
  }

  // Nonce steps and submissions

  lemma AssignImage(tx: TxRecord, nonce: nat)
    requires Enabled(NonceAssigned(nonce), tx)
    ensures Apply(NonceAssigned(nonce), tx) == tx.(nonce := Some(nonce), version := tx.version + 1)
  {
  }

  /** Taking the counter's next nonce onto an unchanged record is one step. */
  lemma AssignIsAStep(from: World, w: World, txs: map<TxId, TxRecord>, nextNonce: map<Pair, nat>, claims: map<Claim, Claimed>,
                      spent: map<SpendKey, nat>, made: seq<Reservation>, s: nat, tx: TxRecord)
    returns (u: World)
    requires TableOk(w, txs, nextNonce, claims, spent, made) && Reaches(from, w) && Seen(w, tx)
    requires s in w.runs && w.runs[s].copy == tx && w.runs[s].txId == tx.txId && tx.status == Queued && tx.nonce.None?
    requires tx.txId in txs && txs[tx.txId].version == tx.version
    ensures var n := NextNonceOf(nextNonce, tx.pair);
            var saved := tx.(nonce := Some(n), version := tx.version + 1);
            && TableOk(u, txs[tx.txId := saved], nextNonce[tx.pair := n + 1], claims, spent, made)
            && Reaches(from, u) && Seen(u, saved)
            && s in u.runs && u.runs[s] == w.runs[s].(copy := saved, taken := Some(n), sent := None, unfound := [])
    ensures CanStep(w, RunAssigns(s)) && u == Do(w, RunAssigns(s))
  {
    hide LivesOk, RunsOk, Ok, NoncesOk, SendsRecorded, Books, AllReserved, ClaimsOk, Reaches, CanStep, Do, Seen, Apply;
    var n := NextNonceOf(nextNonce, tx.pair);
    SameVersionIsCurrent(w, tx);
    AssignCan(w, s, tx, n);
    AssignImage(tx, n);
    WorldStep(w, RunAssigns(s));
    ReservedStep(w, RunAssigns(s), made, claims);
    ReachesNext(from, w, RunAssigns(s));
    AssignDoes(w, txs, s, tx, n);
    u := Do(w, RunAssigns(s));
    SeenLast(u, tx.txId);
  }

  lemma AssignCan(w: World, s: nat, tx: TxRecord, n: nat)
    requires s in w.runs && w.runs[s].copy == tx && w.runs[s].txId == tx.txId && tx.status == Queued && tx.nonce.None?
    requires Exists(w, tx.txId) && Now(w, tx.txId) == tx
    ensures Enabled(NonceAssigned(n), tx) && CanStep(w, RunAssigns(s))
  {
  }

  lemma AssignDoes(w: World, txs: map<TxId, TxRecord>, s: nat, tx: TxRecord, n: nat)
    requires s in w.runs && w.runs[s].copy == tx && w.runs[s].txId == tx.txId && Exists(w, tx.txId) && Now(w, tx.txId) == tx
    requires Mirrors(w, txs) && CanStep(w, RunAssigns(s)) && n == NextNonceOf(w.counter, tx.pair)
    ensures Enabled(NonceAssigned(n), tx)
    ensures var u, saved := Do(w, RunAssigns(s)), Apply(NonceAssigned(n), tx);
            && Mirrors(u, txs[tx.txId := saved]) && u.counter == w.counter[tx.pair := n + 1]
            && u.runs == w.runs[s := w.runs[s].(copy := saved, taken := Some(n), sent := None, unfound := [])]
            && Exists(u, tx.txId) && Now(u, tx.txId) == saved
  {
    hide Apply;
  }

  /** Raising a counter is one step. */
  lemma RaiseIsAStep(from: World, w: World, txs: map<TxId, TxRecord>, nextNonce: map<Pair, nat>, claims: map<Claim, Claimed>,
                     spent: map<SpendKey, nat>, made: seq<Reservation>, pair: Pair, atLeast: nat)
    returns (u: World)
    requires TableOk(w, txs, nextNonce, claims, spent, made) && Reaches(from, w)
    requires pair !in nextNonce || nextNonce[pair] < atLeast
    ensures TableOk(u, txs, nextNonce[pair := atLeast], claims, spent, made)
    ensures Reaches(from, u) && u.runs == w.runs && u == Do(w, Raise(pair, atLeast))
  {
    hide LivesOk, RunsOk, Ok, NoncesOk, SendsRecorded, Books, AllReserved, ClaimsOk, Reaches;
    var step := Raise(pair, atLeast);
    WorldStep(w, step);
    ReservedStep(w, step, made, claims);
    ReachesNext(from, w, step);
    u := Do(w, step);
  }

  /** Writing a new transaction with its reservation and its claim is one step. */
  lemma CreateIsAStep(from: World, w: World, txs: map<TxId, TxRecord>, nextNonce: map<Pair, nat>, claims: map<Claim, Claimed>,
                      spent: map<SpendKey, nat>, made: seq<Reservation>, tx: TxRecord, r: Reservation, claim: Claim, hash: nat)
    returns (u: World)
    requires TableOk(w, txs, nextNonce, claims, spent, made) && Reaches(from, w)
    requires Initial(tx) && tx.kind == Relay && ReservedFor(r, tx) && tx.txId !in txs && claim !in claims
    requires r.CostGwei() <= r.CapGwei() && Room(spent, r)
    ensures TableOk(u, txs[tx.txId := tx], nextNonce, claims[claim := Claimed(tx.txId, hash)],
                    spent[r.Key() := Spent(spent, r.Key()) + r.CostGwei()], made + [r])
    ensures Reaches(from, u)
  {
    hide LivesOk, RunsOk, Ok, NoncesOk, SendsRecorded, Books, AllReserved, ClaimsOk, Reaches, Initial, Room, Do, CanStep;
    var step := Create(tx);
    CreateDoes(w, txs, tx);
    WorldStep(w, step);
    ReserveKeepsBooks(spent, made, r);
    CreateReserves(w, tx, made, r, claims, claim, hash);
    ReachesNext(from, w, step);
    u := Do(w, step);
  }

  lemma CreateDoes(w: World, txs: map<TxId, TxRecord>, tx: TxRecord)
    requires Mirrors(w, txs) && Initial(tx) && tx.kind == Relay && tx.txId !in txs
    ensures CanStep(w, Create(tx))
    ensures Mirrors(Do(w, Create(tx)), txs[tx.txId := tx]) && Do(w, Create(tx)).counter == w.counter
  {
  }

  lemma CreateReserves(w: World, tx: TxRecord, made: seq<Reservation>, r: Reservation, claims: map<Claim, Claimed>, claim: Claim,
                       hash: nat)
    requires CanStep(w, Create(tx)) && ReservedFor(r, tx) && AllReserved(w, made) && ClaimsOk(claims, w.lives)
    requires claim !in claims
    ensures AllReserved(Do(w, Create(tx)), made + [r])
    ensures ClaimsOk(claims[claim := Claimed(tx.txId, hash)], Do(w, Create(tx)).lives)
  {
    hide Initial, ReservedFor;
    var u, all := Do(w, Create(tx)), made + [r];
    SameId(r, tx);
    forall id | IsRelay(u.lives, id) ensures IsReserved(all, id) {
      if id == tx.txId {
        assert all[|made|].txId == id;
      } else {
        assert IsRelay(w.lives, id);
        var i :| 0 <= i < |made| && made[i].txId == id;
        assert all[i].txId == id;
      }
    }
    forall i | 0 <= i < |all| ensures Covered(u.lives, all[i]) {
      if i < |made| { assert Covered(w.lives, made[i]); }
    }
    forall i, j | 0 <= i < j < |all| ensures all[i].txId != all[j].txId {
      if j == |made| { assert Covered(w.lives, made[i]); }
    }
  }

  lemma SameId(r: Reservation, tx: TxRecord)
    requires ReservedFor(r, tx)
    ensures r.txId == tx.txId
  {
  }

  datatype Assigned = Assigned(tx: TxRecord) | AssignConflict | Busy

  datatype CreateResult = Created | Duplicate | SpendCap | CreateFailed

  /** What an invocation was told from outside. */
  datatype Heard =
    | ReceiptOf(hash: Hash, receipt: Option<Receipt>)
    | UrlsSaid(hash: Hash, answers: seq<UrlAnswer>)
    | NonceIs(nonce: nat)
    | FeesAre(fees: ReplacementFees.Fees)
    | GasIs(gas: nat)
    | KnownIs(hash: Hash, known: bool)
    | CallReverts(message: Option<string>)
    | PauseIs(paused: bool)
    | ConfiguredIs(configured: bool)

  class Store {
    var txs: map<TxId, TxRecord>
    var nextNonce: map<Pair, nat>
    var claims: map<Claim, Claimed>
    var spent: map<SpendKey, nat>
    ghost var w: World
    ghost var made: seq<Reservation>
    // of this invocation: what it was told, in order; how many of its writes were not reported as done; how often its clock
    // was past the deadline, and how often the table answered that a transaction overlapped another
    ghost var heard: seq<Heard>
    ghost var mishaps: nat
    ghost var lates: nat
    ghost var clashes: nat

    ghost predicate Valid()
      reads this
    {
      TableOk(w, txs, nextNonce, claims, spent, made)
    }

    /** One call of the table: nothing is heard in it, and a write that fails is counted. */
    twostate predicate Called(failed: bool)
      reads this
    {
      heard == old(heard) && lates == old(lates) && mishaps == old(mishaps) + if failed then 1 else 0
    }

    /** Any number of calls: they fail only for a write that did. */
    twostate predicate Onward(failed: bool)
      reads this
    {
      && old(heard) <= heard && old(lates) <= lates && old(mishaps) <= mishaps && old(clashes) <= clashes
      && (failed ==> mishaps > old(mishaps))
    }

    constructor ()
      ensures Valid() && Nothing(w) && txs == map[] && nextNonce == map[] && claims == map[] && spent == map[]
    {
      txs, nextNonce, claims, spent := map[], map[], map[], map[];
      w, made := World(map[], map[], map[], map[], [], [], map[]), [];
      heard, mishaps, lates, clashes := [], 0, 0, 0;
    }

    /** Other invocations take any number of steps, none of them of this one's run or sweep. A caller is verified against the
        contract alone, so against every environment that keeps it; the body is the quietest of them. */
    method Others(ghost who: Actor)
      requires Valid()
      modifies this
      ensures Valid() && Reaches(old(w), w) && old(made) <= made
      ensures forall c :: c in old(claims) ==> c in claims && claims[c] == old(claims)[c]
      ensures Rests(old(w), w, who) && Called(false) && clashes == old(clashes)
    {
      ReachesItself(w);
    }

    /** One step of the protocol that writes no record. */
    ghost method Take(step: Step)
      requires Valid() && CanStep(w, step)
      requires IsQuiet(step)
      modifies this`w
      ensures Valid() && Reaches(old(w), w) && w == Do(old(w), step)
    {
      hide CanStep, Do, WorldOk, Mirrors, Books, AllReserved, ClaimsOk, Reaches;
      WorldStep(w, step);
      ReachesItself(w);
      ReachesNext(w, w, step);
      ReservedStep(w, step, made, claims);
      QuietMirrors(w, txs, step);
      w := Do(w, step);
    }

    method GetTx(id: TxId, ghost who: Actor := Nobody) returns (tx: Option<TxRecord>)
      requires Valid()
      modifies this
      ensures Valid() && Reaches(old(w), w) && old(made) <= made && Rests(old(w), w, who)
      ensures forall c :: c in old(claims) ==> c in claims && claims[c] == old(claims)[c]
      ensures (tx.Some? <==> id in txs) && (id in old(txs) ==> id in txs)
      ensures Called(false) && clashes == old(clashes)
      ensures tx.Some? ==> tx.value == txs[id] && tx.value.txId == id && Seen(w, tx.value)
    {
      Others(who);
      RecordsStay(old(w), w, old(txs), txs);
      if id in txs {
        SeenLast(w, id);
        tx := Some(txs[id]);
      } else {
        tx := None;
      }
    }

    method GetIdempotency(claim: Claim) returns (previous: Option<Claimed>)
      requires Valid()
      modifies this
      ensures Valid() && Reaches(old(w), w) && old(made) <= made
      ensures forall c :: c in old(claims) ==> c in claims && claims[c] == old(claims)[c]
      ensures previous == if claim in claims then Some(claims[claim]) else None
      ensures old(txs).Keys <= txs.Keys
      ensures Called(false) && clashes == old(clashes)
    {
      Others(Nobody);
      RecordsStay(old(w), w, old(txs), txs);
      previous := if claim in claims then Some(claims[claim]) else None;
    }

    /** Whether the signer's record and the chain's nodes are known. */
    method GetSigner() returns (configured: bool)
      modifies this`heard
      ensures heard == old(heard) + [ConfiguredIs(configured)]
    {
      configured := *;
      heard := heard + [ConfiguredIs(configured)];
    }

    /** Whether the signer waits for its balance on this chain. */
    method GetPause() returns (paused: bool)
      modifies this`heard
      ensures heard == old(heard) + [PauseIs(paused)]
    {
      paused := *;
      heard := heard + [PauseIs(paused)];
    }

    /** A conditional put of one record, one protocol step when it goes in. The result is None both when the version had
        moved on, and nothing was written, and when the write's answer was lost. */
    method SaveTx(next: TxRecord, ghost copy: TxRecord, ghost step: Step) returns (saved: Option<TxRecord>)
      requires Valid() && IsWrite(step) && FillerOf(step).None? && Licensed(w, step, copy)
      requires Enabled(EventOf(step), copy) && next == Image(EventOf(step), copy)
      modifies this
      ensures Valid() && Reaches(old(w), w)
      ensures saved.Some? ==> saved.value == Apply(EventOf(step), copy) && Seen(w, saved.value)
      ensures saved.Some? && RunOf(step).Some? ==>
                var s := RunOf(step).value;
                s in w.runs && w.runs[s] == NextRun(old(w).runs[s], step, saved.value)
      ensures ActorOf(step).Sweeping? ==> Rests(old(w), w, ActorOf(step))
      ensures saved.None? ==> copy.txId in txs && txs[copy.txId].version != copy.version
      ensures Called(saved.None?) && clashes == old(clashes)
    {
      hide Enabled, Image, Licensed, WorldOk, Mirrors, Books, AllReserved, ClaimsOk, Reaches, Seen;
      ghost var e := EventOf(step);
      Others(ActorOf(step));
      StillLicensed(old(w), w, txs, step, copy);
      SavedIsApplied(e, copy);
      if txs[next.txId].version != next.version {
        mishaps := mishaps + 1;
        return None;
      }
      var done := next.(version := next.version + 1);
      ghost var u := WriteIsAStep(old(w), w, txs, nextNonce, claims, spent, made, step, copy, e);
      txs := txs[done.txId := done];
      w := u;
      var answered: bool := *;
      if answered { return Some(done); }
      mishaps := mishaps + 1;
      return None;
    }

    /** One protocol step over two records: the failed image, and a new one at its nonce. */
    method FailWithFiller(failed: TxRecord, filler: TxRecord, ghost copy: TxRecord, ghost step: Step)
      returns (saved: Option<TxRecord>)
      requires Valid() && IsWrite(step) && FillerOf(step) == Some(filler) && Licensed(w, step, copy)
      requires Enabled(EventOf(step), copy) && failed == Image(EventOf(step), copy)
      modifies this
      ensures Valid() && Reaches(old(w), w)
      ensures saved.Some? ==> saved.value == Apply(EventOf(step), copy) && Seen(w, saved.value)
      ensures saved.Some? ==>
                && filler.txId in txs && txs[filler.txId] == filler && Seen(w, filler)
                && saved.value.txId in txs && txs[saved.value.txId] == saved.value
      ensures saved.Some? && RunOf(step).Some? ==>
                var s := RunOf(step).value;
                s in w.runs && w.runs[s] == NextRun(old(w).runs[s], step, saved.value)
      ensures saved.None? ==>
                copy.txId in txs && (txs[copy.txId].version != copy.version || filler.txId in txs)
      ensures Called(saved.None?) && clashes == old(clashes)
    {
      hide Enabled, Image, Licensed, WorldOk, Mirrors, Books, AllReserved, ClaimsOk, Reaches, Seen, Initial;
      ghost var e := EventOf(step);
      Others(ActorOf(step));
      StillLicensed(old(w), w, txs, step, copy);
      SavedIsApplied(e, copy);
      if txs[failed.txId].version != failed.version || filler.txId in txs {
        mishaps := mishaps + 1;
        return None;
      }
      var done := failed.(version := failed.version + 1);
      ghost var u := WriteIsAStep(old(w), w, txs, nextNonce, claims, spent, made, step, copy, e);
      txs := txs[done.txId := done][filler.txId := filler];
      StoredIsSeen(u, txs, nextNonce, claims, spent, made, filler);
      w := u;
      var answered: bool := *;
      if answered { return Some(done); }
      mishaps := mishaps + 1;
      return None;
    }

    /** The counter becomes the larger of itself and this nonce. */
    method RaiseNonce(pair: Pair, atLeast: nat, ghost s: nat) returns (ghost at: World)
      requires Valid()
      modifies this
      ensures Valid() && Reaches(old(w), w) && SameRun(old(w), w, s)
      ensures pair in nextNonce && nextNonce[pair] >= atLeast
      ensures Reaches(old(w), at) && w == Do(at, Raise(pair, atLeast))
      ensures Called(false) && clashes == old(clashes)
    {
      hide WorldOk, Mirrors, Books, AllReserved, ClaimsOk, Reaches;
      Others(Signing(s));
      at := w;
      if pair !in nextNonce || nextNonce[pair] < atLeast {
        ghost var u := RaiseIsAStep(old(w), w, txs, nextNonce, claims, spent, made, pair, atLeast);
        nextNonce := nextNonce[pair := atLeast];
        w := u;
      }
    }

    /** The counter and the record change in one protocol step. Given a record with a nonce, it writes nothing; it starts
        over when the counter it read is no longer the stored one. */
    method AssignNonce(tx: TxRecord, ghost s: nat) returns (r: Assigned, ghost at: World)
      requires Valid() && Seen(w, tx) && tx.status == Queued
      requires s in w.runs && w.runs[s].copy == tx && w.runs[s].txId == tx.txId
      modifies this
      ensures Valid() && Reaches(old(w), w)
      ensures r.Assigned? ==> Seen(w, r.tx) && s in w.runs && r.tx.nonce.Some?
      ensures r.Assigned? && tx.nonce.Some? ==> r.tx == tx && w.runs[s] == old(w).runs[s]
      ensures r.Assigned? && tx.nonce.None? ==>
                && r.tx == tx.(nonce := r.tx.nonce, version := tx.version + 1)
                && w.runs[s] == old(w).runs[s].(copy := r.tx, taken := r.tx.nonce, sent := None, unfound := [])
                && CanStep(at, RunAssigns(s)) && w == Do(at, RunAssigns(s))
                && r.tx.nonce == Some(NextNonceOf(at.counter, tx.pair))
      ensures Reaches(old(w), at) && (!r.Assigned? || tx.nonce.Some? ==> w == at)
      ensures r.AssignConflict? ==> tx.txId in txs && txs[tx.txId].version != tx.version
      ensures r.Busy? ==> clashes > old(clashes) || NextNonceOf(old(w).counter, tx.pair) < NextNonceOf(w.counter, tx.pair)
      ensures Called(!r.Assigned?) && clashes >= old(clashes)
    {
      hide WorldOk, Mirrors, Books, AllReserved, ClaimsOk, Reaches, Seen, CanStep, Do;
      ReachesItself(w);
      at := w;
      if tx.nonce.Some? { return Assigned(tx), at; }
      for attempt := 0 to NONCE_ATTEMPTS
        invariant Valid() && Reaches(old(w), w) && Seen(w, tx) && at == w
        invariant s in w.runs && w.runs[s] == old(w).runs[s]
        invariant Called(false) && clashes >= old(clashes)
        invariant attempt > 0 ==> NextNonceOf(old(w).counter, tx.pair) < NextNonceOf(w.counter, tx.pair)
      {
        ghost var before := w;
        var ended;
        ended, at := TryAssign(tx, s);
        ReachesTransitively(old(w), before, w);
        ReachesTransitively(old(w), before, at);
        CountersGrow(old(w), before, tx.pair);
        if ended.Some? {
          return ended.value, at;
        }
      }
      mishaps := mishaps + 1;
      return Busy, at;
    }

    /** One try: none of an answer when the counter had moved. */
    method TryAssign(tx: TxRecord, ghost s: nat) returns (r: Option<Assigned>, ghost at: World)
      requires Valid() && Seen(w, tx) && tx.status == Queued && tx.nonce.None?
      requires s in w.runs && w.runs[s].copy == tx && w.runs[s].txId == tx.txId
      modifies this
      ensures Valid() && Reaches(old(w), w) && Reaches(old(w), at)
      ensures r.None? ==>
                && Seen(w, tx) && SameRun(old(w), w, s) && at == w
                && NextNonceOf(old(w).counter, tx.pair) < NextNonceOf(w.counter, tx.pair)
      ensures r.Some? && r.value.Assigned? ==>
                && r.value.tx == tx.(nonce := r.value.tx.nonce, version := tx.version + 1) && r.value.tx.nonce.Some?
                && Seen(w, r.value.tx) && s in w.runs
                && w.runs[s] == old(w).runs[s].(copy := r.value.tx, taken := r.value.tx.nonce, sent := None, unfound := [])
                && CanStep(at, RunAssigns(s)) && w == Do(at, RunAssigns(s))
                && r.value.tx.nonce == Some(NextNonceOf(at.counter, tx.pair))
      ensures r.Some? && !r.value.Assigned? ==> at == w
      ensures r.Some? && r.value.AssignConflict? ==> tx.txId in txs && txs[tx.txId].version != tx.version
      ensures r.Some? && r.value.Busy? ==> clashes > old(clashes)
      ensures Called(r.Some? && !r.value.Assigned?) && clashes >= old(clashes)
    {
      hide WorldOk, Mirrors, Books, AllReserved, ClaimsOk, Reaches, Seen, CanStep, Do;
      ReachesItself(w);
      Wait(old(w), tx, s);
      CountersGrow(old(w), w, tx.pair);
      var current := NextNonceOf(nextNonce, tx.pair);
      var next := tx.(nonce := Some(current), version := tx.version + 1);
      at := w;
      var overlaps := OverlapsStill();
      if overlaps {
        mishaps := mishaps + 1;
        return Some(Busy), at;
      }
      Wait(old(w), tx, s);
      CountersGrow(at, w, tx.pair);
      at := w;
      var moved := NextNonceOf(nextNonce, tx.pair) != current;
      var changed := txs[tx.txId].version != tx.version;
      if changed {
        mishaps := mishaps + 1;
        return Some(AssignConflict), at;
      }
      if moved { return None, at; }
      PutNonce(tx, current, s, old(w));
      return Some(Assigned(next)), at;
    }

    /** The counter and the record, which go in together. */
    method PutNonce(tx: TxRecord, current: nat, ghost s: nat, ghost from: World)
      requires Valid() && Reaches(from, w) && Seen(w, tx) && tx.status == Queued && tx.nonce.None?
      requires s in w.runs && w.runs[s].copy == tx && w.runs[s].txId == tx.txId
      requires tx.txId in txs && txs[tx.txId].version == tx.version && current == NextNonceOf(nextNonce, tx.pair)
      modifies this`txs, this`nextNonce, this`w
      ensures Valid() && Reaches(from, w) && CanStep(old(w), RunAssigns(s)) && w == Do(old(w), RunAssigns(s))
      ensures var next := tx.(nonce := Some(current), version := tx.version + 1);
              Seen(w, next) && s in w.runs
              && w.runs[s] == old(w).runs[s].(copy := next, taken := Some(current), sent := None, unfound := [])
    {
      hide WorldOk, Mirrors, Books, AllReserved, ClaimsOk, Reaches, Seen, CanStep, Do;
      ghost var u := AssignIsAStep(from, w, txs, nextNonce, claims, spent, made, s, tx);
      txs := txs[tx.txId := tx.(nonce := Some(current), version := tx.version + 1)];
      nextNonce := nextNonce[tx.pair := current + 1];
      w := u;
    }

    /** Whether a write overlaps another transaction every time it is tried. */
    method OverlapsStill() returns (overlaps: bool)
      modifies this`clashes
      ensures clashes >= old(clashes) && (overlaps ==> clashes > old(clashes))
    {
      overlaps := Overlaps();
      var retry := 0;
      while overlaps && retry < TRANSACTION_CONFLICT_RETRIES
        invariant retry <= TRANSACTION_CONFLICT_RETRIES && clashes >= old(clashes) && (overlaps ==> clashes > old(clashes))
      {
        overlaps := Overlaps();
        retry := retry + 1;
      }
    }

    method Overlaps() returns (overlaps: bool)
      modifies this`clashes
      ensures clashes == old(clashes) + if overlaps then 1 else 0
    {
      overlaps := *;
      if overlaps { clashes := clashes + 1; }
    }

    /** Others take steps while a signer run that read this record waits. */
    method Wait(ghost from: World, tx: TxRecord, ghost s: nat)
      requires Valid() && Seen(w, tx) && Reaches(from, w)
      modifies this
      ensures Valid() && Seen(w, tx) && Reaches(from, w) && Reaches(old(w), w) && SameRun(old(w), w, s) && tx.txId in txs
      ensures Called(false) && clashes == old(clashes)
    {
      hide WorldOk, Books, AllReserved, ClaimsOk, Reaches, IsImage;
      Others(Signing(s));
      SeenStays(old(w), w, tx);
      ReachesTransitively(from, old(w), w);
    }

    /** Record, claim and reservation in one transaction; a refusal names the condition that failed and writes none of
        them. */
    method CreateTx(tx: TxRecord, r: Reservation, claim: Claim, hash: nat) returns (result: CreateResult)
      requires Valid() && Initial(tx) && tx.kind == Relay && ReservedFor(r, tx)
      modifies this
      ensures Valid() && Reaches(old(w), w) && old(made) <= made
      ensures result.Created? ==>
                && tx.txId in txs && txs[tx.txId] == tx && claim in claims && claims[claim] == Claimed(tx.txId, hash)
                && made != [] && made[|made| - 1] == r
      ensures result.Duplicate? ==> claim in claims
      ensures forall c :: c in old(claims) ==> c in claims && claims[c] == old(claims)[c]
      ensures result.SpendCap? ==>
                r.CostGwei() > r.CapGwei() || Spent(spent, r.Key()) + r.CostGwei() > r.CapGwei()
      ensures result.CreateFailed? ==> clashes > old(clashes) || tx.txId in txs
      ensures Called(result.CreateFailed?) && clashes >= old(clashes)
    {
      hide WorldOk, Mirrors, Books, AllReserved, ClaimsOk, Reaches, Initial;
      ReachesItself(w);
      if r.CostGwei() > r.CapGwei() { return SpendCap; }
      var overlaps := OverlapsStill();
      if overlaps {
        mishaps := mishaps + 1;
        return CreateFailed;
      }
      Others(Nobody);
      if claim in claims { return Duplicate; }
      if r.Key() in spent && spent[r.Key()] > r.CapGwei() - r.CostGwei() { return SpendCap; }
      if tx.txId in txs {
        mishaps := mishaps + 1;
        return CreateFailed;
      }
      PutAll(tx, r, claim, hash, old(w));
      return Created;
    }

    /** The three writes, which go in together. */
    method PutAll(tx: TxRecord, r: Reservation, claim: Claim, hash: nat, ghost from: World)
      requires Valid() && Reaches(from, w) && Initial(tx) && tx.kind == Relay && ReservedFor(r, tx)
      requires tx.txId !in txs && claim !in claims && r.CostGwei() <= r.CapGwei() && Room(spent, r)
      modifies this
      ensures Valid() && Reaches(from, w) && made == old(made) + [r] && txs == old(txs)[tx.txId := tx]
      ensures claims == old(claims)[claim := Claimed(tx.txId, hash)]
      ensures Called(false) && clashes == old(clashes)
    {
      hide WorldOk, Mirrors, Books, AllReserved, ClaimsOk, Reaches, Initial, Room, ReservedFor;
      ghost var u := CreateIsAStep(from, w, txs, nextNonce, claims, spent, made, tx, r, claim, hash);
      txs := txs[tx.txId := tx];
      claims := claims[claim := Claimed(tx.txId, hash)];
      spent := spent[r.Key() := Spent(spent, r.Key()) + r.CostGwei()];
      made := made + [r];
      w := u;
    }
  }
}
