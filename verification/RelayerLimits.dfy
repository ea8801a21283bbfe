/** The limit on signatures no node refused: which writes can pass it, and that a run of the services does. */
module RelayerLimits {
  import opened Wrappers
  import opened ReplacementFees
  import opened RelayerRecords
  import opened RelayerEvents
  import opened RelayerInvariants
  import opened RelayerRuns

  // Which writes pass the limit

  /** The refused copies of a signature: what a node that takes its bytes revives together. */
  function RefusedCopies(attempts: seq<Attempt>, sent: Attempt): nat {
    if attempts == [] then 0
    else
      (if attempts[0].rejected.Some? && attempts[0].hash == sent.hash && attempts[0].raw == sent.raw then 1 else 0)
      + RefusedCopies(attempts[1..], sent)
  }

  lemma {:induction false} CopiesAreRevived(attempts: seq<Attempt>, sent: Attempt, now: int)
    ensures Unrefused(TakenAgainAll(attempts, sent, now))
         == Unrefused(attempts) + if sent.rejected.Some? then RefusedCopies(attempts, sent) else 0
  {
    if attempts != [] {
      assert TakenAgainAll(attempts, sent, now)[1..] == TakenAgainAll(attempts[1..], sent, now);
      CopiesAreRevived(attempts[1..], sent, now);
    }
  }

  lemma {:induction false} CountsItself(attempts: seq<Attempt>, i: nat)
    requires i < |attempts| && attempts[i].rejected.Some?
    ensures RefusedCopies(attempts, attempts[i]) >= 1
  {
    if i > 0 { assert attempts[1..][i - 1] == attempts[i]; CountsItself(attempts[1..], i - 1); }
  }

  lemma StripKeepsRefusals(attempts: seq<Attempt>)
    requires Backed(attempts)
    ensures Unrefused(MakeRoom(attempts)) == Unrefused(attempts)
  {
    var over := Signed(attempts) + 1 - MAX_SIGNED_ATTEMPTS;
    StripHolds(attempts, over);
    StillUnrefused(attempts, MakeRoom(attempts));
    StillUnrefused(MakeRoom(attempts), attempts);
  }

  /** Signing never passes the limit. */
  lemma SignedWithin(tx: TxRecord, estimate: Fees, cap: Fees, a: Attempt)
    requires Backed(tx.attempts) && Enabled(Replaced(estimate, cap, a), tx)
    ensures Unrefused(NextAttempts(Replaced(estimate, cap, a), tx)) == Unrefused(tx.attempts) + 1 <= MAX_ATTEMPTS
  {
    hide Decide, Kept, MakeRoom, Backed;
    SigningIsLimited(tx, estimate, cap);
    KeptHolds(tx);
    StripKeepsRefusals(Kept(tx));
    SignedOfConcat(MakeRoom(Kept(tx)), [a]);
    assert Unrefused([a]) == 1 by { assert [a][1..] == []; }
  }

  /** Nor does any other write than a signature and a revival add an unrefused one. */
  lemma OthersAddNone(e: Event, tx: TxRecord)
    requires Enabled(e, tx) && !e.Replaced? && !e.Rebroadcast? && !e.FirstSigned? && !e.NonceGivenUp?
    ensures Unrefused(NextAttempts(e, tx)) <= Unrefused(tx.attempts)
  {
    hide Enabled, Unrefused;
    HashesStay(e, tx);
    StillUnrefused(NextAttempts(e, tx), tx.attempts);
  }

  /** From within the limit, a write ends above it exactly when it sends again bytes a node refused, a node takes them,
      and their refused copies are more than the limit still has room for. So at a full count every revival passes the
      limit, and nothing else ever does. */
  lemma PassesTheLimit(e: Event, tx: TxRecord)
    requires Good(tx) && Enabled(e, tx) && Unrefused(tx.attempts) <= MAX_ATTEMPTS
    ensures Unrefused(Apply(e, tx).attempts) > MAX_ATTEMPTS
       <==> Revives(e, tx) && Unrefused(tx.attempts) + RefusedCopies(tx.attempts, tx.attempts[e.index]) > MAX_ATTEMPTS
    ensures Unrefused(tx.attempts) == MAX_ATTEMPTS ==>
              (Unrefused(Apply(e, tx).attempts) > MAX_ATTEMPTS <==> Revives(e, tx))
  {
    hide Enabled, Apply, Shaped, LogsItsStatus, Bounded, Unrefused, RefusedCopies, Backed;
    AttemptsColumn(e, tx);
    if e.Replaced? {
      SignedWithin(tx, e.estimate, e.cap, e.attempt);
    } else if e.FirstSigned? || e.NonceGivenUp? {
      FewOfOne(NextAttempts(e, tx));
    } else if e.Rebroadcast? {
      IndexIsIn(e, tx);
      CopiesAreRevived(tx.attempts, tx.attempts[e.index], e.now);
      if Revives(e, tx) { CountsItself(tx.attempts, e.index); }
    } else {
      OthersAddNone(e, tx);
    }
  }

  lemma FewOfOne(attempts: seq<Attempt>)
    requires |attempts| <= 1
    ensures Unrefused(attempts) <= 1
  {
  }

  lemma IndexIsIn(e: Event, tx: TxRecord)
    requires e.Rebroadcast? && Enabled(e, tx)
    ensures e.index < |tx.attempts|
  {
  }

  // A run that passes it

  ghost predicate Reachable(tx: TxRecord) {
    exists images, events :: IsRun(images, events) && images[|images| - 1] == tx
  }

  lemma ReachableStart(tx: TxRecord)
    requires Initial(tx)
    ensures Reachable(tx)
  {
    assert IsRun([tx], []);
  }

  lemma ReachableNext(tx: TxRecord, e: Event)
    requires Reachable(tx) && Enabled(e, tx)
    ensures Reachable(Apply(e, tx))
  {
    hide Enabled, Apply, IsRun;
    var images, events := RunTo(tx);
    RunNext(images, events, e);
  }

  lemma RunTo(tx: TxRecord) returns (images: seq<TxRecord>, events: seq<Event>)
    requires Reachable(tx)
    ensures IsRun(images, events) && |images| == |events| + 1 && images[|images| - 1] == tx
  {
    images, events :| IsRun(images, events) && images[|images| - 1] == tx;
  }

  lemma RunNext(images: seq<TxRecord>, events: seq<Event>, e: Event)
    requires IsRun(images, events) && Enabled(e, images[|images| - 1])
    ensures IsRun(images + [Apply(e, images[|images| - 1])], events + [e])
  {
    hide Enabled, Apply, Initial;
    var tx := images[|images| - 1];
    var more, wrote := images + [Apply(e, tx)], events + [e];
    forall i | 0 <= i < |wrote| ensures Enabled(wrote[i], more[i]) && more[i + 1] == Apply(wrote[i], more[i]) {
      if i < |events| { assert Enabled(events[i], images[i]) && images[i + 1] == Apply(events[i], images[i]); }
    }
    assert IsRun(more, wrote);
  }

  function Power(n: nat): (p: nat)
    ensures p > 0
  {
    if n == 0 then 1 else 2 * Power(n - 1)
  }

  lemma {:induction false} PowerGrows(n: nat, m: nat)
    requires n <= m
    ensures Power(n) <= Power(m)
    decreases m
  {
    if n < m { PowerGrows(n, m - 1); }
  }

  function Level(n: nat): Fees { Fees(Power(n), Power(n)) }

  function Ceiling(): Fees { Level(MAX_ATTEMPTS) }

  lemma LevelDoubles(n: nat)
    requires n < MAX_ATTEMPTS
    ensures BumpFees(Level(n), Level(n + 1), Ceiling(), DEFAULT_PRICE_BUMP_PERCENT) == Bumped(Level(n + 1))
    ensures Raises(Level(n + 1), Level(n)) && ClampFees(Level(n + 1), Ceiling()) == Level(n + 1)
  {
    PowerGrows(n + 1, MAX_ATTEMPTS);
    var p := Power(n);
    assert (p * 1125 + 999) / 1000 <= 2 * p && p * 110 / 100 <= 2 * p;
  }

  function Signature(k: nat, fees: Fees): Attempt { Attempt(k, Bytes(k), fees, 0, None, None, None) }

  /** n + 1 attempts, all with bytes: the second refused, the others not, the last at level n. */
  predicate Ladder(tx: TxRecord, n: nat) {
    && Good(tx) && tx.status == Submitted && tx.lookupFrom.None?
    && |tx.attempts| == n + 1 && Unrefused(tx.attempts) == n
    && tx.attempts[n].rejected.None? && tx.attempts[n].fees == Level(n)
    && tx.attempts[1].rejected.Some? && tx.attempts[1].raw.Bytes? && tx.attempts[1].acceptedAt.None?
  }

  lemma LastIsLive(attempts: seq<Attempt>)
    requires attempts != [] && attempts[|attempts| - 1].rejected.None?
    ensures LiveIndex(attempts) == Some(|attempts| - 1)
  {
  }

  lemma KeepsAll(tx: TxRecord)
    requires Good(tx) && |tx.attempts| < MAX_SIGNED_ATTEMPTS
    ensures MakeRoom(Kept(tx)) == tx.attempts
  {
    hide Unrefused, Signed, StripOldest, Shaped, LogsItsStatus;
    UnrefusedAreSigned(tx.attempts);
    StripNothing(tx.attempts, Signed(tx.attempts) + 1 - MAX_SIGNED_ATTEMPTS);
  }

  lemma LadderDecides(tx: TxRecord, n: nat)
    requires 2 <= n < MAX_ATTEMPTS && Ladder(tx, n)
    ensures Decide(tx, Level(n + 1), Ceiling()) == Sign(Level(n + 1))
  {
    hide Good, BumpFees, Unrefused, LiveIndex, ClampFees, Level, Ceiling;
    LastIsLive(tx.attempts);
    LevelDoubles(n);
  }

  lemma ReplacedAppends(tx: TxRecord, estimate: Fees, cap: Fees, a: Attempt)
    requires Good(tx) && |tx.attempts| < MAX_SIGNED_ATTEMPTS && Enabled(Replaced(estimate, cap, a), tx)
    ensures var n := Apply(Replaced(estimate, cap, a), tx);
            && Good(n) && n.attempts == tx.attempts + [a] && n.status == Submitted && n.lookupFrom.None?
            && (a.rejected.None? ==> Unrefused(n.attempts) == Unrefused(tx.attempts) + 1)
  {
    hide Good, Image, Decide, Kept, MakeRoom, Unrefused;
    var e := Replaced(estimate, cap, a);
    GoodStep(e, tx);
    Columns(e, tx);
    KeepsAll(tx);
    IsSubmitted(e, tx);
    SignedOfConcat(tx.attempts, [a]);
    if a.rejected.None? { OneIsOne(a); }
  }

  lemma OneIsOne(a: Attempt)
    requires a.rejected.None?
    ensures Unrefused([a]) == 1
  {
    assert [a][1..] == [];
  }

  lemma IsSubmitted(e: Event, tx: TxRecord)
    requires e.Replaced? && Enabled(e, tx)
    ensures tx.status == Submitted && tx.lookupFrom.None?
  {
  }

  lemma LadderNext(tx: TxRecord, n: nat) returns (next: TxRecord)
    requires 2 <= n < MAX_ATTEMPTS && Ladder(tx, n) && Reachable(tx)
    ensures Ladder(next, n + 1) && Reachable(next)
  {
    hide Good, Image, Decide, Unrefused, Level, Ceiling, Reachable;
    LadderDecides(tx, n);
    var a := Signature(n + 1, Level(n + 1));
    var e := Replaced(Level(n + 1), Ceiling(), a);
    assert Enabled(e, tx);
    ReplacedAppends(tx, Level(n + 1), Ceiling(), a);
    ReachableNext(tx, e);
    next := Apply(e, tx);
  }

  lemma {:induction false} LadderUp(tx: TxRecord, n: nat) returns (top: TxRecord)
    requires 2 <= n <= MAX_ATTEMPTS && Ladder(tx, n) && Reachable(tx)
    ensures Ladder(top, MAX_ATTEMPTS) && Reachable(top)
    decreases MAX_ATTEMPTS - n
  {
    hide Ladder, Reachable;
    if n == MAX_ATTEMPTS {
      top := tx;
    } else {
      var next := LadderNext(tx, n);
      top := LadderUp(next, n + 1);
    }
  }

  function NewRecord(): TxRecord {
    TxRecord(0, Relay, Pair(0, 0), 0, 0, Queued, None, [], [], [], false, false, None, false, false,
             None, None, None, None, None, None, None, 0, 1, 0, [HistoryEntry(Queued, 0)], 0, 1)
  }

  /** Submitted with one signature a node took. */
  lemma FirstTaken() returns (tx: TxRecord)
    ensures Reachable(tx) && Good(tx) && tx.status == Submitted && tx.lookupFrom.None?
    ensures |tx.attempts| == 1 && tx.attempts[0].rejected.None? && tx.attempts[0].fees == Level(0)
    ensures Unrefused(tx.attempts) == 1 && tx.attempts[0].hash == 0
  {
    hide Image, Good, Reachable, Unrefused, Decide;
    var t0 := NewRecord();
    ReachableStart(t0);
    InitialIsGood(t0);
    var e1 := NonceAssigned(0);
    ReachableNext(t0, e1);
    GoodStep(e1, t0);
    Columns(e1, t0);
    var t1 := Apply(e1, t0);
    var e2 := FirstSigned(Level(0), Ceiling(), Signature(0, Level(0)));
    PowerGrows(0, MAX_ATTEMPTS);
    ReachableNext(t1, e2);
    GoodStep(e2, t1);
    Columns(e2, t1);
    var t2 := Apply(e2, t1);
    ReachableNext(t2, SignerTaken(0));
    GoodStep(SignerTaken(0), t2);
    Columns(SignerTaken(0), t2);
    tx := Apply(SignerTaken(0), t2);
    OneIsOne(tx.attempts[0]);
    assert tx.attempts == [tx.attempts[0]];
  }

  /** One replacement, refused, and one more: the foot of the ladder. */
  lemma LadderStart() returns (tx: TxRecord)
    ensures Ladder(tx, 2) && Reachable(tx)
  {
    hide Image, Good, Reachable, Decide, Level, Ceiling, Unrefused;
    var t0 := FirstTaken();
    var e1 := Replaced(Level(1), Ceiling(), Signature(1, Level(1)));
    FirstDecides(t0);
    assert Enabled(e1, t0);
    ReachableNext(t0, e1);
    ReplacedAppends(t0, Level(1), Ceiling(), e1.attempt);
    var t1 := Apply(e1, t0);
    var t2 := RefuseSecond(t0, t1);
    var e3 := Replaced(Level(2), Ceiling(), Signature(2, Level(2)));
    SecondDecides(t2);
    assert Enabled(e3, t2);
    ReachableNext(t2, e3);
    ReplacedAppends(t2, Level(2), Ceiling(), e3.attempt);
    tx := Apply(e3, t2);
  }

  lemma FirstDecides(tx: TxRecord)
    requires |tx.attempts| == 1 && tx.attempts[0].rejected.None? && tx.attempts[0].fees == Level(0)
    requires Unrefused(tx.attempts) == 1
    ensures Decide(tx, Level(1), Ceiling()) == Sign(Level(1))
  {
    hide BumpFees, Unrefused, LiveIndex, ClampFees, Level, Ceiling;
    LastIsLive(tx.attempts);
    LevelDoubles(0);
  }

  lemma RefuseSecond(before: TxRecord, tx: TxRecord) returns (next: TxRecord)
    requires |before.attempts| == 1 && before.attempts[0].rejected.None? && before.attempts[0].fees == Level(0)
    requires before.attempts[0].hash != 1
    requires Reachable(tx) && Good(tx) && tx.status == Submitted && tx.lookupFrom.None?
    requires tx.attempts == before.attempts + [Signature(1, Level(1))]
    ensures Reachable(next) && Good(next) && next.status == Submitted && next.lookupFrom.None?
    ensures |next.attempts| == 2 && next.attempts[0] == before.attempts[0]
    ensures next.attempts[1] == Signature(1, Level(1)).(rejected := Some(""))
    ensures Unrefused(next.attempts) == 1
  {
    hide Image, Good, Reachable, Level;
    var e := ReplacementRefused(1, "", true);
    assert Hashes(tx.attempts)[1] == 1;
    ReachableNext(tx, e);
    GoodStep(e, tx);
    Columns(e, tx);
    next := Apply(e, tx);
    OneIsOne(next.attempts[0]);
    SignedOfConcat([next.attempts[0]], [next.attempts[1]]);
    assert next.attempts == [next.attempts[0]] + [next.attempts[1]];
    NoneLive([next.attempts[1]]);
  }

  lemma SecondDecides(tx: TxRecord)
    requires |tx.attempts| == 2 && tx.attempts[0].rejected.None? && tx.attempts[0].fees == Level(0)
    requires tx.attempts[1].rejected.Some? && tx.attempts[1].fees == Level(1) && Unrefused(tx.attempts) == 1
    ensures Decide(tx, Level(2), Ceiling()) == Sign(Level(2))
  {
    hide BumpFees, Unrefused, LiveIndex, ClampFees, Level, Ceiling;
    FirstIsLive(tx.attempts);
    LevelQuadruples();
  }

  lemma LevelQuadruples()
    ensures BumpFees(Level(0), Level(2), Ceiling(), DEFAULT_PRICE_BUMP_PERCENT) == Bumped(Level(2))
    ensures Raises(Level(2), Level(1))
  {
    PowerGrows(2, MAX_ATTEMPTS);
    assert Power(0) == 1 && Power(1) == 2 && Power(2) == 4;
  }

  lemma FirstIsLive(attempts: seq<Attempt>)
    requires |attempts| == 2 && attempts[0].rejected.None? && attempts[1].rejected.Some?
    ensures LiveIndex(attempts) == Some(0)
  {
    assert attempts[..1] == [attempts[0]];
  }

  /** At the top of the ladder the refused signature is mined, reorged out, and sent again. */
  lemma TopToRevival(tx: TxRecord)
    requires Ladder(tx, MAX_ATTEMPTS)
    ensures var e1, e2, e3 := MinedSeen(Receipt(tx.attempts[1].hash, 0, 0, true), 0), Reorged(0), Rebroadcast(1, 0);
            && Enabled(e1, tx)
            && var mined := Apply(e1, tx);
               && Enabled(e2, mined)
               && var back := Apply(e2, mined);
                  && Enabled(e3, back) && Revives(e3, back)
                  && Unrefused(back.attempts) == MAX_ATTEMPTS < Unrefused(Apply(e3, back).attempts)
  {
    hide Good, Apply, Unrefused, Enabled, NextAttempts;
    var e1 := MinedSeen(Receipt(tx.attempts[1].hash, 0, 0, true), 0);
    MinedMarks(e1, tx);
    ReorgedBack(Apply(e1, tx));
    var back := Apply(Reorged(0), Apply(e1, tx));
    StillUnrefused(tx.attempts, back.attempts);
    StillUnrefused(back.attempts, tx.attempts);
    CanRevive(back);
    PassesTheLimit(Rebroadcast(1, 0), back);
  }

  lemma MinedMarks(e: Event, tx: TxRecord)
    requires e.MinedSeen? && tx.status == Submitted && Good(tx)
    ensures Enabled(e, tx) && Good(Apply(e, tx)) && Apply(e, tx).status == Mined && |Apply(e, tx).attempts| == |tx.attempts|
    ensures forall i :: 0 <= i < |tx.attempts| ==>
              var a := Apply(e, tx).attempts[i];
              a.rejected == tx.attempts[i].rejected && a.raw == tx.attempts[i].raw
  {
    hide Good, Image;
    Columns(e, tx);
    GoodStep(e, tx);
  }

  lemma ReorgedBack(tx: TxRecord)
    requires tx.status == Mined && Good(tx)
    ensures Enabled(Reorged(0), tx)
    ensures var n := Apply(Reorged(0), tx);
            Good(n) && n.status == Submitted && n.attempts == tx.attempts
  {
    hide Good, Image;
    Columns(Reorged(0), tx);
    GoodStep(Reorged(0), tx);
  }

  lemma CanRevive(tx: TxRecord)
    requires tx.status == Submitted && |tx.attempts| > 1 && tx.attempts[1].raw.Bytes? && tx.attempts[1].rejected.Some?
    ensures Enabled(Rebroadcast(1, 0), tx) && Revives(Rebroadcast(1, 0), tx)
  {
  }

  /** A run of the services ends with more unrefused signatures than may be signed: a replacement is refused, nine more
      are signed, the refused one is mined after all and reorged out, and the node takes its bytes again. */
  lemma TheLimitIsPassed() returns (images: seq<TxRecord>, events: seq<Event>)
    ensures IsRun(images, events) && |events| >= 3
    ensures var n := |events|;
            && Unrefused(images[n - 1].attempts) == MAX_ATTEMPTS < Unrefused(images[n].attempts)
            && events[n - 3].MinedSeen? && events[n - 2].Reorged? && Revives(events[n - 1], images[n - 1])
  {
    hide IsRun, Ladder, Enabled, Apply, Unrefused, Revives;
    var foot := LadderStart();
    var top := LadderUp(foot, 2);
    images, events := RunTo(top);
    TopToRevival(top);
    SecondHash(top);
    var e1, e2, e3 := MinedSeen(Receipt(top.attempts[1].hash, 0, 0, true), 0), Reorged(0), Rebroadcast(1, 0);
    RunNext(images, events, e1);
    images, events := images + [Apply(e1, top)], events + [e1];
    RunNext(images, events, e2);
    images, events := images + [Apply(e2, images[|images| - 1])], events + [e2];
    RunNext(images, events, e3);
    images, events := images + [Apply(e3, images[|images| - 1])], events + [e3];
  }

  lemma SecondHash(tx: TxRecord)
    requires Ladder(tx, MAX_ATTEMPTS)
    ensures |tx.attempts| > 1
  {
  }
}
