/** Every step of the protocol keeps its invariant, and moves the nonces as the nonce table says. */
module RelayerSafety {
  import opened Wrappers
  import opened RelayerRecords
  import opened RelayerEvents
  import opened RelayerInvariants
  import opened RelayerRuns
  import opened RelayerNonces
  import opened RelayerProtocol

  // Lives

  /** What an image keeps of the images before it: the transaction's identity, its version count, and its nonce once it
      left the queue. */
  predicate Follows(a: TxRecord, b: TxRecord) {
    && b.txId == a.txId && b.kind == a.kind && b.pair == a.pair && b.fillsTxId == a.fillsTxId
    && b.value == a.value && b.gasLimit == a.gasLimit && b.dependsOn == a.dependsOn
    && (a.status != Queued ==> b.status != Queued && b.nonce == a.nonce)
  }

  lemma FollowsStep(e: Event, tx: TxRecord)
    requires Enabled(e, tx)
    ensures Follows(tx, Apply(e, tx))
  {
    hide Image, Enabled;
    Columns(e, tx);
    EnabledFacts(e, tx);
  }

  lemma {:induction false} ImagesFollow(images: seq<TxRecord>, events: seq<Event>, i: nat, j: nat)
    requires IsRun(images, events) && i <= j < |images|
    ensures Follows(images[i], images[j]) && images[j].version == images[i].version + j - i
    decreases j
  {
    hide Enabled, Image;
    if i < j {
      ImagesFollow(images, events, i, j - 1);
      assert Enabled(events[j - 1], images[j - 1]) && images[j] == Apply(events[j - 1], images[j - 1]);
      FollowsStep(events[j - 1], images[j - 1]);
    }
  }

  lemma VersionsCount(life: Life, id: TxId, i: nat)
    requires IsLife(life, id) && i < |life.images|
    ensures life.images[i].version == i + 1 && life.images[i].txId == id && IsImage(life, life.images[i])
    ensures Follows(life.images[i], Last(life))
  {
    ImagesFollow(life.images, life.events, 0, i);
    ImagesFollow(life.images, life.events, i, |life.images| - 1);
  }

  /** A copy that has the stored version is the stored image. */
  lemma SameVersionSameImage(life: Life, id: TxId, copy: TxRecord)
    requires IsLife(life, id) && IsImage(life, copy)
    ensures copy.version == Last(life).version ==> copy == Last(life)
    ensures Follows(copy, Last(life)) && copy.txId == id && Good(copy)
  {
    hide Good;
    VersionsCount(life, id, |life.images| - 1);
    VersionsCount(life, id, copy.version - 1);
    EveryImageIsGood(life.images, life.events, copy.version - 1);
  }

  lemma LastIsImage(life: Life, id: TxId)
    requires IsLife(life, id)
    ensures IsImage(life, Last(life)) && Good(Last(life)) && Last(life).txId == id
  {
    hide Good;
    VersionsCount(life, id, |life.images| - 1);
    EveryImageIsGood(life.images, life.events, |life.images| - 1);
  }

  lemma ExtendedIsLife(life: Life, id: TxId, e: Event)
    requires IsLife(life, id) && Enabled(e, Last(life))
    ensures IsLife(Extended(life, e), id) && Last(Extended(life, e)) == Apply(e, Last(life))
  {
    hide Enabled, Apply, Initial;
    var next := Extended(life, e);
    forall i | 0 <= i < |next.events|
      ensures Enabled(next.events[i], next.images[i]) && next.images[i + 1] == Apply(next.events[i], next.images[i])
    {
      if i < |life.events| {
        assert Enabled(life.events[i], life.images[i]) && life.images[i + 1] == Apply(life.events[i], life.images[i]);
      }
    }
    assert next.images[0] == life.images[0];
    FollowsStep(e, Last(life));
  }

  lemma NewIsLife(tx: TxRecord)
    requires Initial(tx)
    ensures IsLife(Life([tx], []), tx.txId)
  {
  }

  // Standings

  /** What each write does to where its transaction stands. */
  lemma StandingStep(e: Event, tx: TxRecord)
    requires Good(tx) && Enabled(e, tx)
    ensures tx.status != Failed && StandingOf(tx).phase == Live
    ensures var x, y := StandingOf(tx), StandingOf(Apply(e, tx));
            match e
            case NonceAssigned(nonce) => y == x.(nonce := Some(nonce))
            case NonceGivenUp(_) => y == x.(nonce := None)
            case DependencyFailure(reason, _) => y == x.(phase := Lost(DependencyFailed(reason)))
            case RefusalFailed(_, reason, _, filler) =>
              y == x.(phase := Lost(Refused(reason)), filler := if filler.Some? then filler else x.filler)
            case NonceUsedFailure(_, _, _, _) => y == x.(phase := Lost(NonceUsed))
            case _ => y == x
  {
    hide Image, Bounded, LogsItsStatus, ActiveShape, MinedShape, FailedShape, WalkShape, QueuedShape, Enabled;
    Columns(e, tx);
    EnabledFacts(e, tx);
  }

  lemma StandingsAfterWrite(w: World, id: TxId, e: Event)
    requires Exists(w, id) && Enabled(e, Now(w, id))
    ensures Standings(Write(w, id, e).lives) == Standings(w.lives)[id := StandingOf(Apply(e, Now(w, id)))]
  {
    hide Enabled, Apply, StandingOf;
    var a, b := Standings(Write(w, id, e).lives), Standings(w.lives)[id := StandingOf(Apply(e, Now(w, id)))];
    assert forall k :: k in a.Keys <==> k in b.Keys;
  }

  lemma StandingsWithNew(lives: map<TxId, Life>, tx: TxRecord)
    requires tx.txId !in lives
    ensures Standings(lives[tx.txId := Life([tx], [])]) == Standings(lives)[tx.txId := StandingOf(tx)]
  {
    var a, b := Standings(lives[tx.txId := Life([tx], [])]), Standings(lives)[tx.txId := StandingOf(tx)];
    assert forall k :: k in a.Keys <==> k in b.Keys;
  }

  // Lives stay lives

  lemma WriteKeepsLives(w: World, id: TxId, e: Event)
    requires LivesOk(w) && Exists(w, id) && Enabled(e, Now(w, id))
    ensures LivesOk(Write(w, id, e)) && Exists(Write(w, id, e), id) && Now(Write(w, id, e), id) == Apply(e, Now(w, id))
    ensures forall o :: o in w.lives && o != id ==> Write(w, id, e).lives[o] == w.lives[o]
  {
    hide Enabled, Apply, IsLife;
    ExtendedIsLife(w.lives[id], id, e);
  }

  lemma RefusalKeepsLives(w: World, id: TxId, e: Event, filler: Option<TxRecord>)
    requires LivesOk(w) && Exists(w, id) && CanRefuse(w, Now(w, id), e, filler)
    ensures LivesOk(Refusal(w, id, e, filler))
  {
    hide Enabled, Apply, IsLife, Initial;
    WriteKeepsLives(w, id, e);
    if filler.Some? { NewIsLife(filler.value); }
  }

  lemma LivesStep(w: World, step: Step)
    requires LivesOk(w) && CanStep(w, step)
    ensures LivesOk(Do(w, step))
  {
    hide Enabled, Apply, IsLife, Initial, Refusal, Write, CanRefuse, Settles, SweeperEvent;
    match step {
      case Create(tx) => NewIsLife(tx);
      case Raise(_, _) =>
      case RunStarts(_, _) =>
      case RunEnds(_) =>
      case RunAssigns(s) => WriteKeepsLives(w, w.runs[s].txId, NonceAssigned(NextNonceOf(w.counter, w.runs[s].copy.pair)));
      case RunWrites(s, e) => WriteKeepsLives(w, w.runs[s].txId, e);
      case RunSends(_, _) =>
      case RunLooksUp(_, _, _) =>
      case RunGivesUp(s, message) => WriteKeepsLives(w, w.runs[s].txId, NonceGivenUp(message));
      case RunRefuses(s, e, filler) => RefusalKeepsLives(w, w.runs[s].txId, e, filler);
      case SweepRefuses(id, e, filler) => RefusalKeepsLives(w, id, e, filler);
      case SweepReads(_, _) =>
      case SweepAsks(_, _, _) =>
      case SweepWrites(id, e, _) => WriteKeepsLives(w, id, e);
      case SweepSends(_, _, _) =>
    }
  }

  // Steps are moves

  lemma StandingFacts(w: World, id: TxId)
    requires LivesOk(w) && Exists(w, id)
    ensures id in TableOf(w).all && TableOf(w).all[id] == StandingOf(Now(w, id))
    ensures Good(Now(w, id)) && Now(w, id).txId == id && IsImage(w.lives[id], Now(w, id))
  {
    hide Good, StandingOf, IsLife;
    LastIsImage(w.lives[id], id);
  }

  lemma NoLife(w: World, id: TxId)
    requires LivesOk(w) && id !in w.lives
    ensures id !in TableOf(w).all
  {
  }

  /** A write that leaves the nonce's holder alone is no move. */
  lemma WriteMoves(w: World, id: TxId, e: Event)
    requires LivesOk(w) && Exists(w, id) && Enabled(e, Now(w, id))
    ensures var t, x := TableOf(w), StandingOf(Now(w, id));
            && t.all[id].phase == Live
            && TableOf(Write(w, id, e)) == t.(all := t.all[id := StandingOf(Apply(e, Now(w, id)))])
    ensures !e.NonceAssigned? && !e.NonceGivenUp? && !e.DependencyFailure? && !e.RefusalFailed? && !e.NonceUsedFailure? ==>
              TableOf(Write(w, id, e)) == TableOf(w)
  {
    hide Enabled, Apply, IsLife, Good, StandingOf;
    StandingFacts(w, id);
    StandingsAfterWrite(w, id, e);
    StandingStep(e, Now(w, id));
    var a := Standings(w.lives);
    assert a[id := a[id]] == a;
  }

  lemma HasNonce(tx: TxRecord)
    requires Good(tx) && (tx.status == Queued || tx.status == Submitted) && tx.attempts != []
    ensures tx.nonce.Some?
  {
  }

  lemma RefusalMoves(w: World, id: TxId, e: Event, filler: Option<TxRecord>)
    requires LivesOk(w) && Exists(w, id) && CanRefuse(w, Now(w, id), e, filler)
    ensures var m := RefusalMove(id, e);
            CanMove(TableOf(w), m) && TableOf(Refusal(w, id, e, filler)) == After(TableOf(w), m)
  {
    hide Apply, IsLife, Good, Image;
    var tx := Now(w, id);
    StandingFacts(w, id);
    WriteMoves(w, id, e);
    StandingStep(e, tx);
    HasNonce(tx);
    if filler.Some? {
      NoLife(w, filler.value.txId);
      StandingsWithNew(Write(w, id, e).lives, filler.value);
    }
  }

  lemma AssignedHadNone(tx: TxRecord, nonce: nat)
    requires Enabled(NonceAssigned(nonce), tx)
    ensures tx.nonce.None? && tx.status == Queued
  {
  }

  lemma AssignMoves(w: World, s: nat)
    requires LivesOk(w) && CanStep(w, RunAssigns(s))
    ensures var m := MoveOf(w, RunAssigns(s));
            CanMove(TableOf(w), m) && TableOf(Do(w, RunAssigns(s))) == After(TableOf(w), m)
  {
    hide Apply, IsLife, Good, Image, Enabled;
    var r := w.runs[s];
    var e := NonceAssigned(NextNonceOf(w.counter, r.copy.pair));
    AssignedHadNone(r.copy, NextNonceOf(w.counter, r.copy.pair));
    StandingFacts(w, r.txId);
    WriteMoves(w, r.txId, e);
    StandingStep(e, r.copy);
  }

  lemma GiveUpMoves(w: World, s: nat, message: string)
    requires LivesOk(w) && RunsOk(w) && CanStep(w, RunGivesUp(s, message))
    ensures var step := RunGivesUp(s, message);
            var m := MoveOf(w, step);
            CanMove(TableOf(w), m) && TableOf(Do(w, step)) == After(TableOf(w), m)
  {
    hide Apply, IsLife, Good, Image;
    var r := w.runs[s];
    var e := NonceGivenUp(message);
    StandingFacts(w, r.txId);
    WriteMoves(w, r.txId, e);
    StandingStep(e, r.copy);
    assert CopyOk(w, s, r) && SentOk(w.sends, r);
  }

  lemma SendMoves(w: World, s: nat, outcome: SendOutcome)
    requires LivesOk(w) && RunsOk(w) && Ok(TableOf(w)) && CanStep(w, RunSends(s, outcome))
    ensures var step := RunSends(s, outcome);
            var m := MoveOf(w, step);
            CanMove(TableOf(w), m) && TableOf(Do(w, step)) == After(TableOf(w), m)
  {
    hide IsLife, Good, Ok;
    var r := w.runs[s];
    assert CopyOk(w, s, r);
    StandingFacts(w, r.txId);
    CopyStands(w, r.copy, r.txId);
    NonceWasHandedOut(TableOf(w), r.txId);
  }

  /** A nonce in a copy of a record that left the queue, or that is queued and current, is the record's nonce. */
  lemma CopyStands(w: World, copy: TxRecord, id: TxId)
    requires LivesOk(w) && Exists(w, id) && IsImage(w.lives[id], copy)
    requires copy.status != Queued || copy.nonce == Now(w, id).nonce
    ensures id in TableOf(w).all && TableOf(w).all[id].nonce == copy.nonce && TableOf(w).all[id].pair == copy.pair
    ensures TableOf(w).all[id].kind == copy.kind && copy.txId == id && Good(copy)
  {
    hide Good, IsLife;
    StandingFacts(w, id);
    SameVersionSameImage(w.lives[id], id, copy);
  }

  lemma SweepSendMoves(w: World, copy: TxRecord, index: nat, outcome: SendOutcome)
    requires LivesOk(w) && Ok(TableOf(w)) && CanStep(w, SweepSends(copy, index, outcome))
    ensures var step := SweepSends(copy, index, outcome);
            var m := MoveOf(w, step);
            CanMove(TableOf(w), m) && TableOf(Do(w, step)) == After(TableOf(w), m)
  {
    hide IsLife, Good, Ok;
    CopyStands(w, copy, copy.txId);
    if copy.nonce.Some? { NonceWasHandedOut(TableOf(w), copy.txId); }
  }

  lemma DependencyMoves(w: World, s: nat, e: Event)
    requires LivesOk(w) && CanStep(w, RunWrites(s, e))
    ensures var m := MoveOf(w, RunWrites(s, e));
            CanMove(TableOf(w), m) && TableOf(Do(w, RunWrites(s, e))) == After(TableOf(w), m)
  {
    hide Apply, IsLife, Good, Image;
    var r := w.runs[s];
    StandingFacts(w, r.txId);
    WriteMoves(w, r.txId, e);
    StandingStep(e, r.copy);
  }

  lemma SweepWriteMoves(w: World, id: TxId, e: Event, walker: Option<nat>)
    requires LivesOk(w) && CanStep(w, SweepWrites(id, e, walker))
    ensures var m := MoveOf(w, SweepWrites(id, e, walker));
            CanMove(TableOf(w), m) && TableOf(Do(w, SweepWrites(id, e, walker))) == After(TableOf(w), m)
  {
    hide Apply, IsLife, Good, Image, LivesOk, Standings, StandingOf, Write, Enabled;
    StandingFacts(w, id);
    SweeperMoves(w, id, e, walker);
    WriteMoves(w, id, e);
    if e.NonceUsedFailure? { UsedStanding(w, id, e); }
  }

  lemma SweeperMoves(w: World, id: TxId, e: Event, walker: Option<nat>)
    requires CanStep(w, SweepWrites(id, e, walker))
    ensures !e.NonceAssigned? && !e.NonceGivenUp? && !e.DependencyFailure? && !e.RefusalFailed?
    ensures Enabled(e, Now(w, id))
  {
    hide Enabled;
  }

  lemma UsedStanding(w: World, id: TxId, e: Event)
    requires LivesOk(w) && Exists(w, id) && e.NonceUsedFailure? && Enabled(e, Now(w, id))
    ensures Keeps(TableOf(w), id) && Now(w, id).nonce.Some?
    ensures SlotOf(TableOf(w).all[id]) == Slot(Now(w, id).pair, Now(w, id).nonce.value)
    ensures StandingOf(Apply(e, Now(w, id))) == TableOf(w).all[id].(phase := Lost(NonceUsed))
  {
    hide Apply, IsLife, Good, Image;
    StandingFacts(w, id);
    StandingStep(e, Now(w, id));
    SubmittedHasNonce(Now(w, id));
  }

  lemma SubmittedHasNonce(tx: TxRecord)
    requires Good(tx) && tx.status == Submitted
    ensures tx.nonce.Some? && tx.attempts != [] && tx.mined.None?
  {
  }

  lemma CreateMoves(w: World, tx: TxRecord)
    requires LivesOk(w) && CanStep(w, Create(tx))
    ensures var m := MoveOf(w, Create(tx));
            CanMove(TableOf(w), m) && TableOf(Do(w, Create(tx))) == After(TableOf(w), m)
  {
    hide IsLife;
    NoLife(w, tx.txId);
    StandingsWithNew(w.lives, tx);
  }

  /** Every step moves the nonces as the nonce table allows. */
  lemma StepMoves(w: World, step: Step)
    requires LivesOk(w) && RunsOk(w) && Ok(TableOf(w)) && CanStep(w, step)
    ensures CanMove(TableOf(w), MoveOf(w, step)) && TableOf(Do(w, step)) == After(TableOf(w), MoveOf(w, step))
  {
    hide Enabled, Apply, LivesOk, RunsOk, Ok, Initial, Write, CanRefuse, Settles, SweeperEvent, Standings;
    match step {
      case Create(tx) => CreateMoves(w, tx);
      case Raise(_, _) =>
      case RunStarts(_, _) =>
      case RunEnds(_) =>
      case RunAssigns(s) => AssignMoves(w, s);
      case RunWrites(s, e) => DependencyMoves(w, s, e);
      case RunSends(s, outcome) => SendMoves(w, s, outcome);
      case RunLooksUp(_, _, _) =>
      case RunGivesUp(s, message) => GiveUpMoves(w, s, message);
      case RunRefuses(s, e, filler) => RefusalMoves(w, w.runs[s].txId, e, filler);
      case SweepRefuses(id, e, filler) => RefusalMoves(w, id, e, filler);
      case SweepReads(_, _) =>
      case SweepAsks(_, _, _) =>
      case SweepWrites(id, e, walker) => SweepWriteMoves(w, id, e, walker);
      case SweepSends(copy, index, outcome) => SweepSendMoves(w, copy, index, outcome);
    }
  }

  // Runs stay in step with their records

  lemma SignersDiffer(w: World, s: nat, r: Run, s2: nat, r2: Run)
    requires LivesOk(w) && CopyOk(w, s, r) && CopyOk(w, s2, r2) && s != s2
    ensures r.txId != r2.txId
  {
    hide IsLife;
    if r.txId == r2.txId {
      SameVersionSameImage(w.lives[r.txId], r.txId, r.copy);
      SameVersionSameImage(w.lives[r.txId], r.txId, r2.copy);
    }
  }

  /** Another's write leaves a run in step: on a queued record it can only be a requeue. */
  lemma WriteKeepsCopy(w: World, u: World, s: nat, r: Run, id: TxId, e: Event)
    requires LivesOk(w) && CopyOk(w, s, r) && Exists(w, id) && Enabled(e, Now(w, id))
    requires forall o :: o in w.lives && o != id ==> o in u.lives && u.lives[o] == w.lives[o]
    requires id in u.lives && u.lives[id] == Extended(w.lives[id], e)
    requires r.txId == id && Now(w, id).status == Queued ==> e.Requeued?
    ensures CopyOk(u, s, r)
  {
    hide Enabled, Image, IsLife;
    if r.txId == id {
      ExtendedIsLife(w.lives[id], id, e);
      assert u.lives[id].images[r.copy.version - 1] == w.lives[id].images[r.copy.version - 1];
      Columns(e, Now(w, id));
    }
  }

  /** A run's own write brings its copy up to the record. */
  lemma OwnWriteKeepsCopy(w: World, u: World, s: nat, r: Run, e: Event, r2: Run)
    requires LivesOk(w) && CopyOk(w, s, r) && Now(w, r.txId) == r.copy && Enabled(e, r.copy)
    requires r.txId in u.lives && u.lives[r.txId] == Extended(w.lives[r.txId], e)
    requires r2.txId == r.txId && r2.copy == Apply(e, r.copy) && r2.resets <= MAX_NONCE_RESETS
    requires r2.taken.Some? ==> r.copy.kind == Relay
    requires r2.sent.Some? ==> r2.copy.nonce.Some?
    ensures CopyOk(u, s, r2)
  {
    hide Enabled, Image, IsLife, Good;
    ExtendedIsLife(w.lives[r.txId], r.txId, e);
    LastIsImage(u.lives[r.txId], r.txId);
    FollowsStep(e, r.copy);
  }

  /** A run's write to its own record is nothing to the other runs. */
  lemma OthersStay(w: World, u: World, s: nat)
    requires WorldOk(w) && s in w.runs && u.sends == w.sends
    requires forall s2 :: s2 in u.runs && s2 != s ==> s2 in w.runs && u.runs[s2] == w.runs[s2]
    requires forall o :: o in w.lives && o != w.runs[s].txId ==> o in u.lives && u.lives[o] == w.lives[o]
    ensures forall s2 :: s2 in u.runs && s2 != s ==> CopyOk(u, s2, u.runs[s2]) && SentOk(u.sends, u.runs[s2])
  {
    hide IsLife, Ok, SendsRecorded, NoncesOk, IsImage, SentOk;
    assert CopyOk(w, s, w.runs[s]);
    forall s2 | s2 in u.runs && s2 != s ensures CopyOk(u, s2, u.runs[s2]) && SentOk(u.sends, u.runs[s2]) {
      assert CopyOk(w, s2, w.runs[s2]) && SentOk(w.sends, w.runs[s2]);
      SignersDiffer(w, s, w.runs[s], s2, w.runs[s2]);
    }
  }

  lemma OwnWrites(w: World, s: nat, e: Event)
    requires WorldOk(w) && CanStep(w, RunWrites(s, e))
    ensures var u := Do(w, RunWrites(s, e));
            s in u.runs && CopyOk(u, s, u.runs[s]) && SentOk(u.sends, u.runs[s])
  {
    hide Enabled, Image, IsLife, Ok, SendsRecorded, NoncesOk;
    var u, r := Do(w, RunWrites(s, e)), w.runs[s];
    assert CopyOk(w, s, r) && SentOk(w.sends, r);
    SettledStays(e, r.copy, r.sent);
    OwnWriteKeepsCopy(w, u, s, r, e, u.runs[s]);
  }

  lemma RunWritesRuns(w: World, s: nat, e: Event)
    requires WorldOk(w) && CanStep(w, RunWrites(s, e))
    ensures RunsOk(Do(w, RunWrites(s, e)))
  {
    hide IsLife, Ok, SendsRecorded, NoncesOk, CopyOk, SentOk, Enabled, Apply, Settles, CanRefuse, Initial;
    OwnWrites(w, s, e);
    OthersStay(w, Do(w, RunWrites(s, e)), s);
  }

  lemma SettledStays(e: Event, tx: TxRecord, sent: Option<SendOutcome>)
    requires Enabled(e, tx) && Settles(e, sent)
    ensures Apply(e, tx).nonce == tx.nonce && Apply(e, tx).pair == tx.pair && Apply(e, tx).kind == tx.kind
    ensures e.FirstSigned? || Apply(e, tx).status != Queued
    ensures e.FirstSigned? ==> tx.status == Queued
  {
    hide Image;
    Columns(e, tx);
  }

  lemma OwnAssigns(w: World, s: nat)
    requires WorldOk(w) && CanStep(w, RunAssigns(s))
    ensures var u := Do(w, RunAssigns(s));
            s in u.runs && CopyOk(u, s, u.runs[s]) && SentOk(u.sends, u.runs[s])
  {
    hide Image, IsLife, Ok, SendsRecorded, NoncesOk;
    var u, r := Do(w, RunAssigns(s)), w.runs[s];
    var e := NonceAssigned(NextNonceOf(w.counter, r.copy.pair));
    assert CopyOk(w, s, r) && SentOk(w.sends, r);
    NextIsNew(TableOf(w), r.copy.pair);
    Columns(e, r.copy);
    AssignedIsRelay(w, r);
    OwnWriteKeepsCopy(w, u, s, r, e, u.runs[s]);
  }

  lemma RunAssignsRuns(w: World, s: nat)
    requires WorldOk(w) && CanStep(w, RunAssigns(s))
    ensures RunsOk(Do(w, RunAssigns(s)))
  {
    hide IsLife, Ok, SendsRecorded, NoncesOk, CopyOk, SentOk, Enabled, Apply, Settles, CanRefuse, Initial;
    OwnAssigns(w, s);
    OthersStay(w, Do(w, RunAssigns(s)), s);
  }

  /** A filler has its nonce from the start, so a transaction without one is no filler. */
  lemma AssignedIsRelay(w: World, r: Run)
    requires LivesOk(w) && Ok(TableOf(w)) && Exists(w, r.txId) && Now(w, r.txId) == r.copy && r.copy.nonce.None?
    ensures r.copy.kind == Relay
  {
    hide IsLife, Good;
    StandingFacts(w, r.txId);
    assert StandingOk(TableOf(w), r.txId);
  }

  lemma OwnGivesUp(w: World, s: nat, message: string)
    requires WorldOk(w) && CanStep(w, RunGivesUp(s, message))
    ensures var u := Do(w, RunGivesUp(s, message));
            s in u.runs && CopyOk(u, s, u.runs[s]) && SentOk(u.sends, u.runs[s])
  {
    hide Image, IsLife, Ok, SendsRecorded, NoncesOk;
    var u, r := Do(w, RunGivesUp(s, message)), w.runs[s];
    var e := NonceGivenUp(message);
    assert CopyOk(w, s, r) && SentOk(w.sends, r);
    Columns(e, r.copy);
    OwnWriteKeepsCopy(w, u, s, r, e, u.runs[s]);
  }

  lemma RunGivesUpRuns(w: World, s: nat, message: string)
    requires WorldOk(w) && CanStep(w, RunGivesUp(s, message))
    ensures RunsOk(Do(w, RunGivesUp(s, message)))
  {
    hide IsLife, Ok, SendsRecorded, NoncesOk, CopyOk, SentOk, Enabled, Apply, Settles, CanRefuse, Initial;
    OwnGivesUp(w, s, message);
    OthersStay(w, Do(w, RunGivesUp(s, message)), s);
  }

  /** A run at work on a nonce it took keeps the only live record at it. */
  lemma RunKeeps(w: World, s: nat)
    requires WorldOk(w) && s in w.runs && w.runs[s].copy.status == Queued && w.runs[s].copy.nonce.Some?
    ensures var r := w.runs[s];
            && Keeps(TableOf(w), r.txId) && At(TableOf(w).all[r.txId], Slot(r.copy.pair, r.copy.nonce.value))
            && TableOf(w).all[r.txId].kind == r.copy.kind
  {
    hide IsLife, Ok, Good;
    var r := w.runs[s];
    assert CopyOk(w, s, r);
    StandingFacts(w, r.txId);
    CopyStands(w, r.copy, r.txId);
  }

  lemma OtherSendKeepsSent(sends: seq<Send>, send: Send, r: Run)
    requires SentOk(sends, r)
    requires r.copy.status == Queued && r.taken.Some? && r.copy.nonce == r.taken ==>
               send.slot != Slot(r.copy.pair, r.copy.nonce.value)
    ensures SentOk(sends + [send], r)
  {
    if r.copy.status == Queued && r.taken.Some? && r.copy.nonce == r.taken {
      var slot := Slot(r.copy.pair, r.copy.nonce.value);
      OneMoreSend(sends, send, slot);
      if r.sent.Some? {
        var i :| 0 <= i < |sends| && sends[i].slot == slot && sends[i].txId == r.txId && sends[i].outcome == r.sent.value;
        assert (sends + [send])[i] == sends[i];
      }
    }
  }

  lemma OwnSends(w: World, s: nat, outcome: SendOutcome)
    requires WorldOk(w) && CanStep(w, RunSends(s, outcome))
    ensures var u := Do(w, RunSends(s, outcome));
            CopyOk(u, s, u.runs[s]) && SentOk(u.sends, u.runs[s])
  {
    hide IsLife, Ok, SendsRecorded, NoncesOk;
    var u, r := Do(w, RunSends(s, outcome)), w.runs[s];
    var send := SendOf(r.copy, r.txId, |r.copy.attempts| - 1, outcome);
    assert CopyOk(w, s, r) && SentOk(w.sends, r);
    OneMoreSend(w.sends, send, send.slot);
    assert u.sends[|w.sends|] == send;
  }

  lemma SameLifeKeepsCopy(w: World, u: World, s: nat, r: Run)
    requires CopyOk(w, s, r) && r.txId in u.lives && u.lives[r.txId] == w.lives[r.txId]
    ensures CopyOk(u, s, r)
  {
  }

  /** Two signers' runs are never at work on one nonce. */
  lemma RunsWorkApart(w: World, s: nat, s2: nat)
    requires WorldOk(w) && s in w.runs && s2 in w.runs && s != s2
    requires w.runs[s].copy.status == Queued && w.runs[s].copy.nonce.Some?
    requires w.runs[s2].copy.status == Queued && w.runs[s2].copy.nonce.Some?
    ensures Slot(w.runs[s].copy.pair, w.runs[s].copy.nonce.value) != Slot(w.runs[s2].copy.pair, w.runs[s2].copy.nonce.value)
  {
    hide IsLife, Ok, SendsRecorded, NoncesOk, LivesOk;
    assert CopyOk(w, s, w.runs[s]) && CopyOk(w, s2, w.runs[s2]);
    SignersDiffer(w, s, w.runs[s], s2, w.runs[s2]);
    RunKeeps(w, s);
    RunKeeps(w, s2);
    HeldByExactlyOne(TableOf(w), Slot(w.runs[s].copy.pair, w.runs[s].copy.nonce.value), w.runs[s].txId);
  }

  lemma RunSendsRuns(w: World, s: nat, outcome: SendOutcome)
    requires WorldOk(w) && CanStep(w, RunSends(s, outcome))
    ensures RunsOk(Do(w, RunSends(s, outcome)))
  {
    hide IsLife, Ok, SendsRecorded, NoncesOk, CopyOk, SentOk;
    var u, r := Do(w, RunSends(s, outcome)), w.runs[s];
    OwnSends(w, s, outcome);
    forall s2 | s2 in u.runs && s2 != s ensures CopyOk(u, s2, u.runs[s2]) && SentOk(u.sends, u.runs[s2]) {
      var r2 := w.runs[s2];
      assert CopyOk(w, s2, r2) && SentOk(w.sends, r2);
      if r2.copy.status == Queued && r2.copy.nonce.Some? { RunsWorkApart(w, s, s2); }
      OtherSendKeepsSent(w.sends, SendOf(r.copy, r.txId, |r.copy.attempts| - 1, outcome), r2);
      RunExists(w, s2);
      SameLifeKeepsCopy(w, u, s2, r2);
    }
  }

  lemma RunExists(w: World, s: nat)
    requires RunsOk(w) && s in w.runs
    ensures Exists(w, w.runs[s].txId)
  {
    assert CopyOk(w, s, w.runs[s]);
  }

  /** A sweep's send is never at a nonce a signer run took and is still at work on. */
  lemma SweepSendsElsewhere(w: World, copy: TxRecord, s: nat)
    requires WorldOk(w) && Exists(w, copy.txId) && IsImage(w.lives[copy.txId], copy) && copy.status == Submitted
    requires s in w.runs && w.runs[s].copy.status == Queued && w.runs[s].taken.Some? && copy.nonce.Some?
    ensures w.runs[s].copy.nonce.Some? ==>
              Slot(copy.pair, copy.nonce.value) != Slot(w.runs[s].copy.pair, w.runs[s].copy.nonce.value)
  {
    hide IsLife, Ok, Good;
    var r := w.runs[s];
    assert CopyOk(w, s, r);
    CopyStands(w, copy, copy.txId);
    SameVersionSameImage(w.lives[copy.txId], copy.txId, copy);
    if r.copy.nonce.Some? {
      RunKeeps(w, s);
      if At(TableOf(w).all[r.txId], Slot(copy.pair, copy.nonce.value)) {
        assert r.txId != copy.txId;
        LiveIsAlone(TableOf(w), r.txId, copy.txId);
      }
    }
  }

  lemma SweepSendsRuns(w: World, copy: TxRecord, index: nat, outcome: SendOutcome)
    requires WorldOk(w) && CanStep(w, SweepSends(copy, index, outcome))
    ensures RunsOk(Do(w, SweepSends(copy, index, outcome)))
  {
    hide IsLife, Ok, SendsRecorded, NoncesOk, LivesOk, SentOk;
    var u := Do(w, SweepSends(copy, index, outcome));
    forall s | s in u.runs ensures CopyOk(u, s, u.runs[s]) && SentOk(u.sends, u.runs[s]) {
      var r := w.runs[s];
      assert CopyOk(w, s, r) && SentOk(w.sends, r);
      if copy.nonce.Some? {
        if r.copy.status == Queued && r.taken.Some? { SweepSendsElsewhere(w, copy, s); }
        OtherSendKeepsSent(w.sends, SendOf(copy, copy.txId, index, outcome), r);
      }
    }
  }

  lemma QueuedMeansRequeued(e: Event, tx: TxRecord)
    requires Enabled(e, tx) && SweeperEvent(e) && (e.RefusalKept? ==> tx.status == Submitted)
    ensures tx.status == Queued ==> e.Requeued?
  {
  }

  lemma SweepWritesRuns(w: World, id: TxId, e: Event, walker: Option<nat>)
    requires WorldOk(w) && CanStep(w, SweepWrites(id, e, walker))
    ensures RunsOk(Do(w, SweepWrites(id, e, walker)))
  {
    hide Enabled, Image, IsLife, Ok, SendsRecorded, NoncesOk, SweeperEvent;
    var u := Do(w, SweepWrites(id, e, walker));
    QueuedMeansRequeued(e, Now(w, id));
    forall s | s in u.runs ensures CopyOk(u, s, u.runs[s]) && SentOk(u.sends, u.runs[s]) {
      assert CopyOk(w, s, w.runs[s]) && SentOk(w.sends, w.runs[s]);
      WriteKeepsCopy(w, u, s, w.runs[s], id, e);
    }
  }

  lemma SweepRefusesRuns(w: World, id: TxId, e: Event, filler: Option<TxRecord>)
    requires WorldOk(w) && CanStep(w, SweepRefuses(id, e, filler))
    ensures RunsOk(Do(w, SweepRefuses(id, e, filler)))
  {
    hide Enabled, Image, IsLife, Ok, SendsRecorded, NoncesOk, Initial, SentOk, CopyOk, LivesOk;
    var u := Do(w, SweepRefuses(id, e, filler));
    forall s | s in u.runs ensures CopyOk(u, s, u.runs[s]) && SentOk(u.sends, u.runs[s]) {
      assert CopyOk(w, s, w.runs[s]) && SentOk(w.sends, w.runs[s]);
      WriteKeepsCopy(w, u, s, w.runs[s], id, e);
    }
  }

  lemma OwnRefuses(w: World, s: nat, e: Event, filler: Option<TxRecord>)
    requires WorldOk(w) && CanStep(w, RunRefuses(s, e, filler))
    ensures var u := Do(w, RunRefuses(s, e, filler));
            s in u.runs && CopyOk(u, s, u.runs[s]) && SentOk(u.sends, u.runs[s])
  {
    hide Image, IsLife, Ok, SendsRecorded, NoncesOk, Initial, Enabled;
    var u, r := Do(w, RunRefuses(s, e, filler)), w.runs[s];
    assert CopyOk(w, s, r) && SentOk(w.sends, r);
    Columns(e, r.copy);
    OwnWriteKeepsCopy(w, u, s, r, e, u.runs[s]);
  }

  lemma RunRefusesRuns(w: World, s: nat, e: Event, filler: Option<TxRecord>)
    requires WorldOk(w) && CanStep(w, RunRefuses(s, e, filler))
    ensures RunsOk(Do(w, RunRefuses(s, e, filler)))
  {
    hide IsLife, Ok, SendsRecorded, NoncesOk, CopyOk, SentOk, Enabled, Apply, Settles, Initial;
    OwnRefuses(w, s, e, filler);
    OthersStay(w, Do(w, RunRefuses(s, e, filler)), s);
  }

  /** Starting or ending a run, creating a transaction, raising a counter and asking leave the other runs as they are. */
  lemma QuietRuns(w: World, step: Step)
    requires WorldOk(w) && CanStep(w, step)
    requires step.Create? || step.Raise? || step.RunStarts? || step.RunEnds? || step.SweepReads? || step.SweepAsks?
    ensures RunsOk(Do(w, step))
  {
    hide IsLife, Ok, SendsRecorded, NoncesOk, Initial, CopyOk, SentOk;
    var u := Do(w, step);
    if step.RunStarts? { StartIsOk(w, step.signer, step.id); }
    forall s | s in u.runs ensures CopyOk(u, s, u.runs[s]) && SentOk(u.sends, u.runs[s]) {
      if !(step.RunStarts? && s == step.signer) {
        assert CopyOk(w, s, w.runs[s]) && SentOk(w.sends, w.runs[s]);
        RunExists(w, s);
        SameLifeKeepsCopy(w, u, s, w.runs[s]);
      }
    }
  }

  /** What a node says of a receipt is no part of what a run owes. */
  lemma RunLooksUpRuns(w: World, s: nat, hash: Hash, receipt: Option<Receipt>)
    requires WorldOk(w) && CanStep(w, RunLooksUp(s, hash, receipt))
    ensures RunsOk(Do(w, RunLooksUp(s, hash, receipt)))
  {
    hide IsLife, Ok, SendsRecorded, NoncesOk, Initial;
    var u := Do(w, RunLooksUp(s, hash, receipt));
    forall s2 | s2 in u.runs ensures CopyOk(u, s2, u.runs[s2]) && SentOk(u.sends, u.runs[s2]) {
      assert CopyOk(w, s2, w.runs[s2]) && SentOk(w.sends, w.runs[s2]);
    }
  }

  lemma StartIsOk(w: World, s: nat, id: TxId)
    requires WorldOk(w) && CanStep(w, RunStarts(s, id))
    ensures var u := Do(w, RunStarts(s, id));
            CopyOk(u, s, u.runs[s]) && SentOk(u.sends, u.runs[s])
  {
    hide IsLife, Ok, SendsRecorded, NoncesOk, Good;
    LastIsImage(w.lives[id], id);
  }

  lemma RunsStep(w: World, step: Step)
    requires WorldOk(w) && CanStep(w, step)
    ensures RunsOk(Do(w, step))
  {
    hide CanStep, Do, WorldOk, RunsOk;
    match step {
      case Create(_) => QuietRuns(w, step);
      case Raise(_, _) => QuietRuns(w, step);
      case RunStarts(_, _) => QuietRuns(w, step);
      case RunEnds(_) => QuietRuns(w, step);
      case RunAssigns(s) => RunAssignsRuns(w, s);
      case RunWrites(s, e) => RunWritesRuns(w, s, e);
      case RunSends(s, outcome) => RunSendsRuns(w, s, outcome);
      case RunLooksUp(s, hash, receipt) => RunLooksUpRuns(w, s, hash, receipt);
      case RunGivesUp(s, message) => RunGivesUpRuns(w, s, message);
      case RunRefuses(s, e, filler) => RunRefusesRuns(w, s, e, filler);
      case SweepRefuses(id, e, filler) => SweepRefusesRuns(w, id, e, filler);
      case SweepReads(_, _) => QuietRuns(w, step);
      case SweepAsks(_, _, _) => QuietRuns(w, step);
      case SweepWrites(id, e, walker) => SweepWritesRuns(w, id, e, walker);
      case SweepSends(copy, index, outcome) => SweepSendsRuns(w, copy, index, outcome);
    }
  }

  // Nothing saved or sent is lost

  /** A step adds at most one image to a life. A nonce goes from it only by being given up. */
  ghost predicate LifeGrows(a: Life, b: Life, id: TxId, fate: map<Slot, Fate>) {
    || b == a
    || (a.images != [] && b.images != [] && b.images[..|b.images| - 1] == a.images
        && NonceGoesOnlyGivenUp(Last(a), Last(b), id, fate))
  }

  predicate NonceGoesOnlyGivenUp(a: TxRecord, b: TxRecord, id: TxId, fate: map<Slot, Fate>) {
    || b.nonce == a.nonce || a.nonce.None?
    || (Slot(a.pair, a.nonce.value) in fate && fate[Slot(a.pair, a.nonce.value)] == GivenUp(id))
  }

  ghost predicate AllGrow(before: map<TxId, Life>, after: map<TxId, Life>, fate: map<Slot, Fate>) {
    && (forall id :: id in before ==> id in after && LifeGrows(before[id], after[id], id, fate))
    && (forall id :: id in after && id !in before ==> |after[id].images| == 1)
  }

  lemma WriteGrows(w: World, id: TxId, e: Event, fate: map<Slot, Fate>)
    requires LivesOk(w) && Exists(w, id) && Enabled(e, Now(w, id))
    requires e.NonceAssigned? || (!e.NonceGivenUp? && Apply(e, Now(w, id)).nonce == Now(w, id).nonce)
          || NonceGoesOnlyGivenUp(Now(w, id), Apply(e, Now(w, id)), id, fate)
    ensures AllGrow(w.lives, Write(w, id, e).lives, fate)
  {
    hide Apply, IsLife, Image;
    assert Extended(w.lives[id], e).images[..|w.lives[id].images|] == w.lives[id].images;
  }

  lemma RefusalGrows(w: World, id: TxId, e: Event, filler: Option<TxRecord>, fate: map<Slot, Fate>)
    requires LivesOk(w) && Exists(w, id) && CanRefuse(w, Now(w, id), e, filler)
    ensures AllGrow(w.lives, Refusal(w, id, e, filler).lives, fate)
  {
    hide Enabled, Apply, IsLife, Initial, LifeGrows;
    NonceStays(e, Now(w, id));
    WriteGrows(w, id, e, fate);
  }

  lemma NonceStays(e: Event, tx: TxRecord)
    requires Enabled(e, tx)
    ensures !e.NonceAssigned? && !e.NonceGivenUp? ==> Apply(e, tx).nonce == tx.nonce
  {
    hide Image, Enabled;
    Columns(e, tx);
  }

  lemma SameGrow(lives: map<TxId, Life>, fate: map<Slot, Fate>)
    ensures AllGrow(lives, lives, fate)
  {
  }

  lemma CreateGrows(w: World, tx: TxRecord)
    requires CanStep(w, Create(tx))
    ensures AllGrow(w.lives, Do(w, Create(tx)).lives, w.fate)
  {
  }

  lemma RunWriteGrows(w: World, step: Step)
    requires LivesOk(w) && CanStep(w, step) && (step.RunAssigns? || step.RunWrites? || step.RunGivesUp? || step.SweepWrites?)
    ensures AllGrow(w.lives, Do(w, step).lives, Do(w, step).fate)
  {
    hide Image, IsLife, LifeGrows, AllGrow, Extended, Enabled;
    var u := Do(w, step);
    match step {
      case RunAssigns(s) =>
        WriteGrows(w, w.runs[s].txId, NonceAssigned(NextNonceOf(w.counter, w.runs[s].copy.pair)), u.fate);
      case RunGivesUp(s, message) =>
        WriteGrows(w, w.runs[s].txId, NonceGivenUp(message), u.fate);
      case RunWrites(s, e) =>
        NonceStays(e, w.runs[s].copy);
        WriteGrows(w, w.runs[s].txId, e, u.fate);
      case SweepWrites(id, e, _) =>
        NonceStays(e, Now(w, id));
        WriteGrows(w, id, e, u.fate);
    }
  }

  lemma LivesGrow(w: World, step: Step)
    requires LivesOk(w) && CanStep(w, step)
    ensures AllGrow(w.lives, Do(w, step).lives, Do(w, step).fate)
  {
    hide Enabled, Apply, IsLife, Initial, Settles, SweeperEvent, AllGrow, Write, Refusal, CanRefuse;
    match step {
      case Create(tx) => CreateGrows(w, tx);
      case RunRefuses(s, e, filler) => RefusalGrows(w, w.runs[s].txId, e, filler, Do(w, step).fate);
      case SweepRefuses(id, e, filler) => RefusalGrows(w, id, e, filler, Do(w, step).fate);
      case RunAssigns(_) => RunWriteGrows(w, step);
      case RunGivesUp(_, _) => RunWriteGrows(w, step);
      case RunWrites(_, _) => RunWriteGrows(w, step);
      case SweepWrites(_, _, _) => RunWriteGrows(w, step);
      case _ => SameGrow(w.lives, Do(w, step).fate);
    }
  }

  lemma RecordedStays(w: World, u: World, send: Send)
    requires Recorded(w, send)
    requires AllGrow(w.lives, u.lives, u.fate)
    ensures Recorded(u, send)
  {
    hide HoldsAt, NonceGoesOnlyGivenUp;
    var a, b := w.lives[send.txId], u.lives[send.txId];
    var k :| 0 <= k < |a.images| && HoldsAt(a.images[k], send);
    if b != a { assert b.images[..|a.images|][k] == a.images[k]; }
    assert b.images[k] == a.images[k];
  }

  lemma CopyIsRecorded(w: World, copy: TxRecord, id: TxId, index: nat, outcome: SendOutcome)
    requires id in w.lives && IsImage(w.lives[id], copy) && copy.nonce.Some? && index < |copy.attempts|
    ensures Recorded(w, SendOf(copy, id, index, outcome))
  {
    assert Hashes(copy.attempts)[index] == copy.attempts[index].hash;
    assert HoldsAt(w.lives[id].images[copy.version - 1], SendOf(copy, id, index, outcome));
  }

  /** Which send a step makes. */
  lemma SendsOfStep(w: World, step: Step)
    requires LivesOk(w) && RunsOk(w) && CanStep(w, step)
    ensures Do(w, step).sends == w.sends
         || exists send :: Do(w, step).sends == w.sends + [send] && Recorded(w, send)
  {
    hide Enabled, Apply, IsLife, Initial, Settles, SweeperEvent, Recorded, Write, Refusal, CanRefuse;
    if step.RunSends? {
      var r := w.runs[step.signer];
      assert CopyOk(w, step.signer, r);
      CopyIsRecorded(w, r.copy, r.txId, |r.copy.attempts| - 1, step.outcome);
    } else if step.SweepSends? && step.copy.nonce.Some? {
      CopyIsRecorded(w, step.copy, step.copy.txId, step.index, step.outcome);
    } else if step.RunRefuses? || step.SweepRefuses? {
      RefusalSendsNothing(w, step);
    } else if !step.SweepSends? {
      WriteSendsNothing(w, step);
    }
  }

  lemma RefusalSendsNothing(w: World, step: Step)
    requires CanStep(w, step) && (step.RunRefuses? || step.SweepRefuses?)
    ensures Do(w, step).sends == w.sends
  {
    hide Enabled, Apply, Initial;
  }

  lemma WriteSendsNothing(w: World, step: Step)
    requires CanStep(w, step) && !step.RunSends? && !step.SweepSends? && !step.RunRefuses? && !step.SweepRefuses?
    ensures Do(w, step).sends == w.sends
  {
    hide Enabled, Apply, Initial, Extended;
  }

  lemma RecordedStep(w: World, step: Step)
    requires WorldOk(w) && CanStep(w, step)
    ensures SendsRecorded(Do(w, step))
  {
    hide CanStep, Do, LivesOk, RunsOk, Ok, NoncesOk, Recorded, AllGrow;
    var u := Do(w, step);
    LivesGrow(w, step);
    SendsOfStep(w, step);
    forall i | 0 <= i < |u.sends| ensures Recorded(u, u.sends[i]) {
      assert Recorded(w, u.sends[i]);
      RecordedStays(w, u, u.sends[i]);
    }
  }

  /** One more image of a life keeps what it says of the nonces before. */
  lemma NoReturnGrows(a: Life, b: Life, id: TxId, was: map<Slot, Fate>, fate: map<Slot, Fate>)
    requires IsLife(a, id) && NoReturn(a, id, was) && LifeGrows(a, b, id, fate)
    requires forall slot :: slot in was && was[slot].GivenUp? ==> slot in fate && fate[slot] == was[slot]
    ensures NoReturn(b, id, fate)
  {
    hide IsRun;
    var n := |a.images|;
    forall k | 0 <= k < |b.images| && b.images[k].nonce.Some?
      ensures KeptSince(b, k)
           || (var slot := Slot(b.images[k].pair, b.images[k].nonce.value); slot in fate && fate[slot] == GivenUp(id))
    {
      if k < n {
        assert b.images[..n][k] == a.images[k] || b == a;
        VersionsCount(a, id, k);
        if KeptSince(a, k) && b != a {
          assert a.images[n - 1].nonce == a.images[k].nonce;
          if b.images[n].nonce == a.images[n - 1].nonce {
            forall m | k <= m < |b.images| ensures b.images[m].nonce == b.images[k].nonce {
              if m < n { assert b.images[..n][m] == a.images[m]; }
            }
            assert KeptSince(b, k);
          }
        }
      }
    }
  }

  lemma NoncesStep(w: World, step: Step)
    requires WorldOk(w) && CanStep(w, step)
    ensures NoncesOk(Do(w, step))
  {
    hide CanStep, Do, RunsOk, Ok, After, CanMove, IsLife, NoReturn, LifeGrows, SendsRecorded;
    var u := Do(w, step);
    LivesGrow(w, step);
    StepMoves(w, step);
    MoveEvolves(TableOf(w), MoveOf(w, step));
    GivenUpStays(TableOf(w), TableOf(u));
    forall id | id in u.lives ensures NoReturn(u.lives[id], id, u.fate) {
      if id in w.lives {
        NoReturnGrows(w.lives[id], u.lives[id], id, w.fate, u.fate);
      } else {
        NewNoReturn(u.lives[id], id, u.fate);
      }
    }
  }

  lemma NewNoReturn(life: Life, id: TxId, fate: map<Slot, Fate>)
    requires |life.images| == 1
    ensures NoReturn(life, id, fate)
  {
    if life.images[0].nonce.Some? { assert KeptSince(life, 0); }
  }

  lemma GivenUpStays(t: Table, u: Table)
    requires forall slot :: slot in t.fate ==> slot in u.fate && CanBecome(t, t.fate[slot], u, u.fate[slot])
    ensures forall slot :: slot in t.fate && t.fate[slot].GivenUp? ==> slot in u.fate && u.fate[slot] == t.fate[slot]
  {
  }

  /** Every step keeps the whole invariant. */
  lemma WorldStep(w: World, step: Step)
    requires WorldOk(w) && CanStep(w, step)
    ensures WorldOk(Do(w, step))
  {
    hide CanStep, Do, LivesOk, RunsOk, Ok, NoncesOk, SendsRecorded, CanMove, After;
    LivesStep(w, step);
    StepMoves(w, step);
    MoveKeeps(TableOf(w), MoveOf(w, step));
    RunsStep(w, step);
    RecordedStep(w, step);
    NoncesStep(w, step);
  }
}
